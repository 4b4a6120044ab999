/** What every reachable metadata state satisfies, and why a node never
    refuses a snapshot that a correct node built. */
module ControlInvariant {
  import opened Core
  import opened MapSums
  import opened ControlState

  // ------------------------------------------------------------- refcounts

  function Weights(bindings: map<CacheKey, BindingRecord>, b: BlockId): (w: map<CacheKey, nat>)
  {
    map k | k in bindings :: multiset(bindings[k].blocks)[b]
  }

  /** How often the bindings name `b`, repetitions inside one binding included. */
  ghost function Occurrences(bindings: map<CacheKey, BindingRecord>, b: BlockId): (n: nat)
  {
    Total(Weights(bindings, b))
  }

  ghost predicate NoZeroes(refs: map<BlockId, nat>)
  {
    forall b :: b in refs ==> refs[b] > 0
  }

  /** Counters are exact and a block nobody names has no counter. */
  ghost predicate RefsExact(bindings: map<CacheKey, BindingRecord>, refs: map<BlockId, nat>)
  {
    && NoZeroes(refs)
    && forall b :: RefCount(refs, b) == Occurrences(bindings, b)
  }

  /** Releasing blocks that are all counted subtracts exactly: no decrement
      meets a counter that is already zero or missing. */
  lemma {:induction false} ReleaseExact(refs: map<BlockId, nat>, blocks: seq<BlockId>)
    requires NoZeroes(refs)
    requires forall b :: multiset(blocks)[b] <= RefCount(refs, b)
    ensures NoZeroes(Release(refs, blocks))
    ensures forall b :: RefCount(Release(refs, blocks), b) == RefCount(refs, b) - multiset(blocks)[b]
    decreases |blocks|
  {
    if blocks != [] {
      assert blocks == [blocks[0]] + blocks[1..];
      var next := ReleaseOne(refs, blocks[0]);
      assert forall b :: RefCount(next, b) == RefCount(refs, b) - (if b == blocks[0] then 1 else 0);
      assert forall b :: multiset(blocks)[b] == multiset(blocks[1..])[b] + (if b == blocks[0] then 1 else 0);
      ReleaseExact(next, blocks[1..]);
    }
  }

  lemma FirstCounts(blocks: seq<BlockId>)
    requires blocks != []
    ensures forall b :: multiset(blocks)[b] == multiset(blocks[1..])[b] + (if b == blocks[0] then 1 else 0)
  {
    assert blocks == [blocks[0]] + blocks[1..];
  }

  lemma {:induction false} AcquireExact(refs: map<BlockId, nat>, blocks: seq<BlockId>)
    requires NoZeroes(refs)
    ensures NoZeroes(Acquire(refs, blocks))
    ensures forall b :: RefCount(Acquire(refs, blocks), b) == RefCount(refs, b) + multiset(blocks)[b]
    decreases |blocks|
  {
    if blocks != [] {
      FirstCounts(blocks);
      var next := refs[blocks[0] := RefCount(refs, blocks[0]) + 1];
      AcquireExact(next, blocks[1..]);
    }
  }

  lemma RebindOccurrences(bindings: map<CacheKey, BindingRecord>, key: CacheKey, r: BindingRecord, b: BlockId)
    ensures Occurrences(bindings[key := r], b)
         == Occurrences(bindings, b) + multiset(r.blocks)[b]
            - (if key in bindings then multiset(bindings[key].blocks)[b] else 0)
  {
    assert Weights(bindings[key := r], b) == Weights(bindings, b)[key := multiset(r.blocks)[b]];
    TotalUpdate(Weights(bindings, b), key, multiset(r.blocks)[b]);
  }

  lemma BindOneKeepsRefs(s: State, agent: AgentId, item: ChainBinding)
    requires RefsExact(s.bindings, s.blockRefs)
    ensures RefsExact(BindOne(s, agent, item).bindings, BindOne(s, agent, item).blockRefs)
  {
    var gone := OldBlocks(s, item.key);
    forall b ensures multiset(gone)[b] <= RefCount(s.blockRefs, b) {
      if item.key in s.bindings {
        TotalAtLeast(Weights(s.bindings, b), item.key);
      }
    }
    ReleaseExact(s.blockRefs, gone);
    AcquireExact(Release(s.blockRefs, gone), item.blocks);
    var t := BindOne(s, agent, item);
    forall b ensures RefCount(t.blockRefs, b) == Occurrences(t.bindings, b) {
      RebindOccurrences(s.bindings, item.key, BindingRecord(agent, item.blocks), b);
    }
  }

  // ------------------------------------------------------------- invariant

  ghost predicate Distinct<T>(xs: seq<T>)
  {
    forall i, j :: 0 <= i < j < |xs| ==> xs[i] != xs[j]
  }

  /** Prefix-tree edges point to bound keys, each child listed once. */
  ghost predicate EdgesOk(bound: set<CacheKey>, children: map<CacheKey, seq<CacheKey>>)
  {
    forall p :: p in children ==> Distinct(children[p]) && forall k :: k in children[p] ==> k in bound
  }

  ghost predicate FencesOk(fences: map<BlockId, nat>, pos: int)
  {
    |fences| <= MAX_BLOCK_FENCES && forall b :: b in fences ==> fences[b] <= pos
  }

  ghost predicate ReplicasOk(replicas: map<BlockId, nat>)
  {
    |replicas| <= MAX_REPLICA_ENTRIES && forall b :: b in replicas ==> 2 <= replicas[b] <= 16
  }

  /** A committed lease was consumed at a revision its key has left behind. */
  ghost predicate CommitOk(revisions: map<CacheKey, U64>, lease: UploadLease)
  {
    lease.committed.Some? ==>
      var c := lease.committed.value;
      && ValidBinding(c.binding) && c.binding.blocks == lease.blocks
      && c.binding.key in revisions && c.expectedRevision < revisions[c.binding.key]
  }

  ghost predicate RecordOk(lease: UploadLease, revisions: map<CacheKey, U64>, agents: set<AgentId>, pos: int)
  {
    && 1 <= |lease.blocks| <= MAX_LEASE_BLOCKS
    && lease.createdAt <= pos
    && lease.agent in agents
    && CommitOk(revisions, lease)
  }

  ghost predicate RecordsOk(
    records: map<BlockId, UploadLease>, revisions: map<CacheKey, U64>, agents: set<AgentId>, pos: int)
  {
    forall id :: id in records ==> RecordOk(records[id], revisions, agents, pos)
  }

  ghost predicate CapacityOk(records: map<BlockId, UploadLease>)
  {
    |records| <= MAX_LEASES && Reserved(records) <= MAX_RESERVED_BLOCKS
  }

  /** Nothing is reserved and no revision is kept before activation. */
  ghost predicate ActivationOk(l: LeaseState)
  {
    !l.initialized ==> l.records == map[] && l.revisions == map[]
  }

  ghost predicate DeadlineOk(clock: U64, d: LeaseDeadline)
  {
    d.generation >= 1 && 1 <= d.ttlTicks <= MAX_TTL_TICKS && 0 <= d.deadlineTick - d.ttlTicks <= clock
  }

  ghost predicate DeadlinesOk(ids: set<BlockId>, deadlines: map<BlockId, LeaseDeadline>, clock: U64)
  {
    forall id :: id in deadlines ==> id in ids && DeadlineOk(clock, deadlines[id])
  }

  ghost predicate CancelledOk(records: map<BlockId, UploadLease>, cancelled: map<BlockId, nat>, pos: int)
  {
    forall id :: id in cancelled ==>
      id in records && records[id].committed.None? && records[id].createdAt <= cancelled[id] <= pos
  }

  ghost predicate ExpiredOk(l: LeaseState, pos: int)
  {
    forall id :: id in l.expired ==>
      && id in l.records && l.records[id].committed.None? && id !in l.cancelled
      && id in l.deadlines && l.deadlines[id].deadlineTick <= l.clock
      && l.records[id].createdAt <= l.expired[id] <= pos
  }

  /** `a` and `b` consumed the same key at the same revision. */
  ghost predicate SameSlot(a: UploadLease, b: UploadLease)
  {
    && a.committed.Some? && b.committed.Some?
    && a.committed.value.binding.key == b.committed.value.binding.key
    && a.committed.value.expectedRevision == b.committed.value.expectedRevision
  }

  ghost predicate SlotsDistinct(records: map<BlockId, UploadLease>)
  {
    forall i, j {:trigger SameSlot(records[i], records[j])} ::
      i in records && j in records && i != j ==> !SameSlot(records[i], records[j])
  }

  ghost predicate LeasesOk(l: LeaseState, agents: set<AgentId>, bound: set<CacheKey>, pos: int)
  {
    && ActivationOk(l)
    && CapacityOk(l.records)
    && l.revisions.Keys <= bound
    && RecordsOk(l.records, l.revisions, agents, pos)
    && SlotsDistinct(l.records)
    && DeadlinesOk(l.records.Keys, l.deadlines, l.clock)
    && CancelledOk(l.records, l.cancelled, pos)
    && ExpiredOk(l, pos)
  }

  ghost predicate Inv(s: State)
  {
    && RefsExact(s.bindings, s.blockRefs)
    && EdgesOk(s.bindings.Keys, s.children)
    && FencesOk(s.fences, Pos(s))
    && ReplicasOk(s.replicas)
    && LeasesOk(s.leases, s.agents.Keys, s.bindings.Keys, Pos(s))
  }

  // ---------------------------------------------------- one request at a time

  lemma AddChildKeepsEdges(
    bound: set<CacheKey>, children: map<CacheKey, seq<CacheKey>>, parent: Option<CacheKey>, kid: CacheKey)
    requires EdgesOk(bound, children)
    ensures EdgesOk(bound + {kid}, AddChild(children, parent, kid))
  {
    assert parent.Some? ==> Distinct(Children(children, parent.value));
  }

  lemma BumpKeepsLeases(l: LeaseState, agents: set<AgentId>, bound: set<CacheKey>, pos: int, key: CacheKey)
    requires LeasesOk(l, agents, bound, pos)
    ensures LeasesOk(BumpRevision(l, key), agents, bound + {key}, pos)
  {
    var r := BumpRevision(l, key).revisions;
    forall id | id in l.records ensures RecordOk(l.records[id], r, agents, pos) {
      assert RecordOk(l.records[id], l.revisions, agents, pos);
    }
    assert r.Keys <= bound + {key};
  }

  lemma BindOneKeepsInv(s: State, agent: AgentId, item: ChainBinding)
    requires Inv(s)
    ensures Inv(BindOne(s, agent, item))
  {
    hide RefsExact, EdgesOk, FencesOk, ReplicasOk, LeasesOk, AddChild, BumpRevision, Acquire, Release;
    BindOneKeepsRefs(s, agent, item);
    var t := BindOne(s, agent, item);
    assert t.bindings.Keys == s.bindings.Keys + {item.key};
    BumpKeepsLeases(s.leases, s.agents.Keys, s.bindings.Keys, Pos(s), item.key);
    AddChildKeepsEdges(s.bindings.Keys, s.children, item.parent, item.key);
  }

  lemma {:induction false} BindAllKeepsInv(s: State, agent: AgentId, items: seq<ChainBinding>)
    requires Inv(s)
    ensures Inv(BindAll(s, agent, items))
    decreases |items|
  {
    if items != [] {
      BindOneKeepsInv(s, agent, items[0]);
      BindAllKeepsInv(BindOne(s, agent, items[0]), agent, items[1..]);
    }
  }

  lemma ReservedInsert(records: map<BlockId, UploadLease>, id: BlockId, lease: UploadLease)
    ensures Reserved(records[id := lease])
         == Reserved(records) - (if id in records then |records[id].blocks| else 0) + |lease.blocks|
  {
    assert Sizes(records[id := lease]) == Sizes(records)[id := |lease.blocks|];
    TotalUpdate(Sizes(records), id, |lease.blocks|);
  }

  /** With no reservation yet, activation clears nothing and cannot be
      followed by a refusal. */
  lemma ReserveCases(s: State, id: BlockId, agent: AgentId, blocks: seq<BlockId>)
    requires ActivationOk(s.leases)
    ensures var o := Reserve(s, id, agent, blocks);
            if o.response.Rejected? then o.state == s
            else
              && o.response == LeaseReserved
              && (o.state == s.(leases := s.leases.(initialized := true)) ||
                  (&& id !in s.leases.records && |s.leases.records| < MAX_LEASES && agent in s.agents
                   && 1 <= |blocks| <= MAX_LEASE_BLOCKS
                   && Reserved(s.leases.records) + |blocks| <= MAX_RESERVED_BLOCKS
                   && o.state == s.(leases := s.leases.(
                        initialized := true,
                        records := s.leases.records[id := UploadLease(agent, blocks, At(s), None)]))))
  {
    assert Sizes(map[]) == map[];
  }

  lemma InsertKeepsLeases(
    l: LeaseState, agents: set<AgentId>, bound: set<CacheKey>, pos: nat, id: BlockId, lease: UploadLease)
    requires LeasesOk(l, agents, bound, pos)
    requires id !in l.records && |l.records| < MAX_LEASES && lease.agent in agents
    requires 1 <= |lease.blocks| <= MAX_LEASE_BLOCKS && lease.committed.None? && lease.createdAt == pos
    requires Reserved(l.records) + |lease.blocks| <= MAX_RESERVED_BLOCKS
    ensures LeasesOk(l.(initialized := true, records := l.records[id := lease]), agents, bound, pos)
  {
    hide RecordOk, DeadlinesOk, SlotsDistinct;
    ReservedInsert(l.records, id, lease);
    InsertKeepsRecords(l, agents, pos, id, lease);
  }

  lemma InsertKeepsRecords(l: LeaseState, agents: set<AgentId>, pos: nat, id: BlockId, lease: UploadLease)
    requires RecordsOk(l.records, l.revisions, agents, pos) && SlotsDistinct(l.records)
    requires DeadlinesOk(l.records.Keys, l.deadlines, l.clock)
    requires id !in l.records && lease.agent in agents
    requires 1 <= |lease.blocks| <= MAX_LEASE_BLOCKS && lease.committed.None? && lease.createdAt == pos
    ensures RecordOk(lease, l.revisions, agents, pos) && SlotsDistinct(l.records[id := lease])
    ensures DeadlinesOk(l.records[id := lease].Keys, l.deadlines, l.clock)
  {
    hide DeadlineOk, RecordsOk;
  }

  lemma ReserveKeepsInv(s: State, id: BlockId, agent: AgentId, blocks: seq<BlockId>)
    requires Inv(s) && s.lastApplied.Some?
    ensures Inv(Reserve(s, id, agent, blocks).state)
  {
    ReserveCases(s, id, agent, blocks);
    var t := Reserve(s, id, agent, blocks).state;
    if t.leases.records != s.leases.records {
      InsertKeepsLeases(s.leases, s.agents.Keys, s.bindings.Keys, Pos(s), id, UploadLease(agent, blocks, At(s), None));
    }
  }

  lemma ConsumeSlots(
    records: map<BlockId, UploadLease>, revisions: map<CacheKey, U64>, agents: set<AgentId>, pos: int,
    id: BlockId, c: LeaseCommit)
    requires SlotsDistinct(records) && RecordsOk(records, revisions, agents, pos)
    requires id in records && (c.binding.key in revisions ==> revisions[c.binding.key] == c.expectedRevision)
    ensures SlotsDistinct(records[id := records[id].(committed := Some(c))])
  {
    var done := records[id].(committed := Some(c));
    forall i | i in records && i != id ensures !SameSlot(records[i], done) && !SameSlot(done, records[i]) {
      assert RecordOk(records[i], revisions, agents, pos);
    }
  }

  lemma MarkKeepsRecords(
    l: LeaseState, agents: set<AgentId>, pos: int, id: BlockId, done: UploadLease)
    requires RecordsOk(l.records, l.revisions, agents, pos) && RecordOk(done, l.revisions, agents, pos)
    ensures RecordsOk(l.records[id := done], l.revisions, agents, pos)
  {
    hide RecordOk;
  }

  lemma MarkKeepsMarkers(l: LeaseState, pos: int, id: BlockId, done: UploadLease)
    requires CancelledOk(l.records, l.cancelled, pos) && ExpiredOk(l, pos)
    requires id in l.records && id !in l.cancelled && id !in l.expired
    ensures CancelledOk(l.records[id := done], l.cancelled, pos)
    ensures ExpiredOk(l.(records := l.records[id := done]), pos)
  {
  }

  lemma MarkKeepsLeases(
    l: LeaseState, agents: set<AgentId>, bound: set<CacheKey>, pos: int, id: BlockId, done: UploadLease)
    requires LeasesOk(l, agents, bound, pos)
    requires id in l.records && id !in l.cancelled && id !in l.expired
    requires done.blocks == l.records[id].blocks && RecordOk(done, l.revisions, agents, pos)
    requires SlotsDistinct(l.records[id := done])
    ensures LeasesOk(l.(records := l.records[id := done]), agents, bound, pos)
  {
    hide RecordOk, RecordsOk, DeadlinesOk, SlotsDistinct, CancelledOk, ExpiredOk;
    ReservedInsert(l.records, id, done);
    MarkKeepsRecords(l, agents, pos, id, done);
    MarkKeepsMarkers(l, pos, id, done);
    assert l.records[id := done].Keys == l.records.Keys;
  }

  /** Consuming a pending lease at its key's current revision. */
  lemma ConsumeKeepsLeases(
    l: LeaseState, agents: set<AgentId>, bound: set<CacheKey>, pos: int, id: BlockId, c: LeaseCommit)
    requires LeasesOk(l, agents, bound, pos)
    requires l.initialized
    requires id in l.records && l.records[id].committed.None? && id !in l.cancelled && id !in l.expired
    requires ValidBinding(c.binding) && c.binding.blocks == l.records[id].blocks
    requires Revision(l, c.binding.key) == c.expectedRevision < U64_MAX
    ensures var m := BumpRevision(l, c.binding.key);
            LeasesOk(m.(records := m.records[id := m.records[id].(committed := Some(c))]),
                     agents, bound + {c.binding.key}, pos)
  {
    hide ValidBinding, DeadlinesOk, SlotsDistinct, CancelledOk, ExpiredOk;
    BumpKeepsLeases(l, agents, bound, pos, c.binding.key);
    ConsumeSlots(l.records, l.revisions, agents, pos, id, c);
    var m := BumpRevision(l, c.binding.key);
    assert RecordOk(l.records[id], m.revisions, agents, pos);
    MarkKeepsLeases(m, agents, bound + {c.binding.key}, pos, id, l.records[id].(committed := Some(c)));
  }

  lemma CommitKeepsInv(s: State, id: BlockId, agent: AgentId, binding: ChainBinding, expected: U64)
    requires Inv(s)
    ensures Inv(Commit(s, id, agent, binding, expected).state)
  {
    hide RefsExact, EdgesOk, FencesOk, ReplicasOk, ValidBinding, AddChild;
    if ValidateCommit(s, id, agent, binding, expected) == Ok(true) {
      BindOneKeepsInv(s, agent, binding);
      var t := BindOne(s, agent, binding);
      assert t.bindings.Keys == s.bindings.Keys + {binding.key};
      ConsumeKeepsLeases(s.leases, s.agents.Keys, s.bindings.Keys, Pos(s), id, LeaseCommit(binding, expected));
    }
  }

  lemma CancelKeepsInv(s: State, id: BlockId, agent: AgentId)
    requires Inv(s) && s.lastApplied.Some?
    ensures Inv(Cancel(s, id, agent).state)
  {
    hide RefsExact, EdgesOk, FencesOk, ReplicasOk, CapacityOk, SlotsDistinct, CommitOk, DeadlinesOk;
    if id in s.leases.records {
      assert RecordOk(s.leases.records[id], s.leases.revisions, s.agents.Keys, Pos(s));
    }
  }

  lemma RenewKeepsInv(s: State, id: BlockId, agent: AgentId, expected: U64, ttl: U64)
    requires Inv(s)
    ensures Inv(Renew(s, id, agent, expected, ttl).state)
  {
    hide RefsExact, EdgesOk, FencesOk, ReplicasOk, CapacityOk, SlotsDistinct, CommitOk, CancelledOk, RecordsOk;
  }

  lemma AdvanceKeepsInv(s: State, expected: U64)
    requires Inv(s)
    ensures Inv(Advance(s, expected).state)
  {
    hide RefsExact, EdgesOk, FencesOk, ReplicasOk, CapacityOk, SlotsDistinct, CommitOk, CancelledOk, RecordsOk;
  }

  lemma ExpireKeepsInv(s: State, id: BlockId, generation: U64, deadlineTick: U64)
    requires Inv(s) && s.lastApplied.Some?
    ensures Inv(Expire(s, id, generation, deadlineTick).state)
  {
    hide RefsExact, EdgesOk, FencesOk, ReplicasOk, CapacityOk, SlotsDistinct, CommitOk, DeadlinesOk;
    if id in s.leases.records {
      assert RecordOk(s.leases.records[id], s.leases.revisions, s.agents.Keys, Pos(s));
    }
  }

  lemma {:induction false} RequireEntries(replicas: map<BlockId, nat>, blocks: seq<BlockId>, n: nat)
    requires 2 <= n <= 16
    requires forall b :: b in replicas ==> 2 <= replicas[b] <= 16
    ensures forall b :: b in Require(replicas, blocks, n) ==> 2 <= Require(replicas, blocks, n)[b] <= 16
    decreases |blocks|
  {
    if blocks != [] {
      var b := blocks[0];
      RequireEntries(replicas[b := if b in replicas && replicas[b] >= n then replicas[b] else n], blocks[1..], n);
    }
  }

  /** A requirement is raised to the larger of the two, never lowered, for the
      blocks listed and no others. */
  lemma {:induction false} RequireRaises(replicas: map<BlockId, nat>, blocks: seq<BlockId>, n: nat)
    ensures Require(replicas, blocks, n).Keys == replicas.Keys + BlockSet(blocks)
    ensures forall b :: b in replicas && b !in blocks ==> Require(replicas, blocks, n)[b] == replicas[b]
    ensures forall b :: b in blocks ==>
              Require(replicas, blocks, n)[b] == if b in replicas && replicas[b] > n then replicas[b] else n
    decreases |blocks|
  {
    if blocks != [] {
      var b := blocks[0];
      assert blocks == [b] + blocks[1..];
      RequireRaises(replicas[b := if b in replicas && replicas[b] >= n then replicas[b] else n], blocks[1..], n);
    }
  }

  /** Later positions and more agents never invalidate a lease table. */
  lemma LeasesCarryOver(
    l: LeaseState, agents: set<AgentId>, agents': set<AgentId>, bound: set<CacheKey>, pos: int, pos': int)
    requires LeasesOk(l, agents, bound, pos) && agents <= agents' && pos <= pos'
    ensures LeasesOk(l, agents', bound, pos')
  {
    forall i | i in l.records ensures RecordOk(l.records[i], l.revisions, agents', pos') {
      assert RecordOk(l.records[i], l.revisions, agents, pos);
    }
  }

  lemma RequireKeepsInv(s: State, blocks: seq<BlockId>, n: nat)
    requires Inv(s)
    ensures Inv(RequireMany(s, blocks, n).state)
  {
    hide RefsExact, EdgesOk, FencesOk, LeasesOk, Require;
    if 2 <= n <= 16 { RequireEntries(s.replicas, blocks, n); }
  }

  lemma RegisterKeepsInv(s: State, agent: AgentId, record: AgentRecord)
    requires Inv(s)
    ensures Inv(s.(agents := s.agents[agent := record]))
  {
    hide RefsExact, EdgesOk, FencesOk, ReplicasOk, LeasesOk;
    LeasesCarryOver(s.leases, s.agents.Keys, s.agents[agent := record].Keys, s.bindings.Keys, Pos(s), Pos(s));
  }

  lemma UnfencedKeepsInv(s: State, req: Request)
    requires Inv(s) && s.lastApplied.Some?
    ensures Inv(ApplyUnfenced(s, req).state)
  {
    hide Inv, Reserve, Commit, BindAll, BindOne, RequireMany, Cancel, Renew, Advance, Expire;
    match req
    case BeginUploadLease(lease, agent, blocks) => ReserveKeepsInv(s, lease, agent, blocks);
    case CommitUploadLease(lease, agent, binding, expected) => CommitKeepsInv(s, lease, agent, binding, expected);
    case BindChain(agent, items) => BindAllKeepsInv(s, agent, items);
    case BindPrefix(agent, item) => BindOneKeepsInv(s, agent, item);
    case RequireReplicas(blocks, n) => RequireKeepsInv(s, blocks, n);
    case RegisterAgent(agent, name) => RegisterKeepsInv(s, agent, AgentRecord(name, At(s)));
    case CancelUploadLease(lease, agent) => CancelKeepsInv(s, lease, agent);
    case RenewUploadLease(lease, agent, expected, ttl) => RenewKeepsInv(s, lease, agent, expected, ttl);
    case AdvanceLeaseClock(tick) => AdvanceKeepsInv(s, tick);
    case ExpireUploadLease(lease, generation, tick) => ExpireKeepsInv(s, lease, generation, tick);
  }

  /** A refused request changes nothing at all. */
  lemma RejectedChangesNothing(s: State, req: Request)
    requires ActivationOk(s.leases)
    ensures ApplyOne(s, req).response.Rejected? ==> ApplyOne(s, req).state == s
  {
    hide Touched, FencesFit, Fence, BindOne, BindAll, MarkCommitted, Require, IsExpired, ValidateCommit, Reserve;
    if req.BeginUploadLease? {
      ReserveCases(s, req.lease, req.agent, req.blocks);
    }
  }

  lemma FenceKeepsFences(fences: map<BlockId, nat>, touched: set<BlockId>, at: nat)
    requires FencesOk(fences, at) && |fences| + |touched - fences.Keys| <= MAX_BLOCK_FENCES
    ensures FencesOk(Fence(fences, touched, at), at)
  {
    assert Fence(fences, touched, at).Keys == fences.Keys + (touched - fences.Keys);
  }

  lemma {:induction false} BindAllFrame(s: State, agent: AgentId, items: seq<ChainBinding>)
    ensures var t := BindAll(s, agent, items);
            t == s.(leases := s.leases.(revisions := t.leases.revisions),
                    blockRefs := t.blockRefs, bindings := t.bindings, children := t.children)
    decreases |items|
  {
    if items != [] { BindAllFrame(BindOne(s, agent, items[0]), agent, items[1..]); }
  }

  /** What a request leaves alone, by kind of request. */
  lemma UnfencedFrame(s: State, req: Request)
    ensures var t := ApplyUnfenced(s, req).state;
            t.fences == s.fences && t.lastApplied == s.lastApplied && t.membership == s.membership
    ensures var l, m := s.leases, ApplyUnfenced(s, req).state.leases;
            && (!req.BeginUploadLease? ==> m.initialized == l.initialized)
            && (!req.BeginUploadLease? && !req.CommitUploadLease? ==> m.records == l.records)
            && (!req.BeginUploadLease? && !req.CommitUploadLease? && !req.BindChain? && !req.BindPrefix? ==>
                  m.revisions == l.revisions)
            && (!req.AdvanceLeaseClock? ==> m.clock == l.clock)
  {
    hide Cancel, Renew, Advance, Expire, RequireMany, Reserve, Commit, BindOne, BindAll;
    if req.BindChain? { BindAllFrame(s, req.agent, req.bindings); }
  }

  lemma ApplyOneKeepsInv(s: State, req: Request)
    requires Inv(s) && s.lastApplied.Some?
    ensures Inv(ApplyOne(s, req).state)
    ensures ApplyOne(s, req).state.lastApplied == s.lastApplied
  {
    hide RefsExact, EdgesOk, ReplicasOk, RecordsOk, CapacityOk, SlotsDistinct, DeadlinesOk, CancelledOk, ExpiredOk;
    hide FencesOk, Fence, Touched, ApplyUnfenced;
    RejectedChangesNothing(s, req);
    if !ApplyOne(s, req).response.Rejected? {
      UnfencedKeepsInv(s, req);
      UnfencedFrame(s, req);
      FenceKeepsFences(s.fences, Touched(s, req), At(s));
    }
  }

  lemma EntryKeepsInv(s: State, e: Entry)
    requires Inv(s) && Pos(s) < e.id.index
    ensures Inv(ApplyEntry(s, e).state)
    ensures Pos(ApplyEntry(s, e).state) == e.id.index
  {
    hide RefsExact, EdgesOk, ReplicasOk, LeasesOk, ApplyOne;
    var s1 := s.(lastApplied := Some(e.id));
    LeasesCarryOver(s.leases, s.agents.Keys, s.agents.Keys, s.bindings.Keys, Pos(s), Pos(s1));
    if e.payload.Normal? {
      ApplyOneKeepsInv(s1, e.payload.request);
    }
  }

  /** The invariant holds along every run. */
  lemma {:induction false} RunKeepsInv(s: State, log: seq<Entry>)
    requires Inv(s) && Increasing(Pos(s), log)
    ensures Inv(Run(s, log))
    ensures Pos(s) <= Pos(Run(s, log))
    decreases |log|
  {
    if log != [] {
      EntryKeepsInv(s, log[0]);
      RunKeepsInv(ApplyEntry(s, log[0]).state, log[1..]);
    }
  }

  lemma {:induction false} RunAppend(s: State, log: seq<Entry>, more: seq<Entry>)
    ensures Run(s, log + more) == Run(Run(s, log), more)
    decreases |log|
  {
    if log == [] {
      assert log + more == more;
    } else {
      assert (log + more)[1..] == log[1..] + more;
      RunAppend(ApplyEntry(s, log[0]).state, log[1..], more);
    }
  }

  lemma {:induction false} IncreasingAppend(from: int, log: seq<Entry>, e: Entry)
    requires Increasing(from, log) && (if log == [] then from else log[|log| - 1].id.index) < e.id.index
    ensures Increasing(from, log + [e])
    decreases |log|
  {
    if log != [] {
      assert (log + [e])[1..] == log[1..] + [e];
      IncreasingAppend(log[0].id.index, log[1..], e);
    }
  }

  lemma EmptyInv()
    ensures Inv(EMPTY)
  {
    assert Sizes(map[]) == map[];
    forall b ensures Occurrences(map[], b) == 0 {
      assert Weights(map[], b) == map[];
    }
  }

  lemma ReachableInv(s: State)
    requires Reachable(s)
    ensures Inv(s)
  {
    var log :| Increasing(-1, log) && s == Run(EMPTY, log);
    EmptyInv();
    RunKeepsInv(EMPTY, log);
  }
}
