/** The replicated metadata state and its transitions, as values.

    `StateMachine.MetadataState` (state_machine.dfy) is the imperative form; its
    methods are proved equal to the transitions defined here. */
module ControlState {
  import opened Core
  import opened MapSums

  const MAX_LEASES: nat := 4096
  const MAX_LEASE_BLOCKS: nat := 256
  const MAX_RESERVED_BLOCKS: nat := 65_536
  const MAX_TTL_TICKS: nat := 86_400
  const MAX_BLOCK_FENCES: nat := 65_536
  const MAX_REPLICA_ENTRIES: nat := 16_384
  const MAX_REPLICA_BATCH: nat := 4096
  const MAX_FINGERPRINT_FIELD: nat := 1024

  // ---------------------------------------------------------------- entities

  datatype LogId = LogId(leader: nat, index: nat)

  datatype ChainBinding = ChainBinding(key: CacheKey, blocks: seq<BlockId>, parent: Option<CacheKey>)

  datatype BindingRecord = BindingRecord(agent: AgentId, blocks: seq<BlockId>)

  datatype AgentRecord = AgentRecord(displayName: Bytes, registeredAt: nat)

  datatype LeaseDeadline = LeaseDeadline(generation: U64, deadlineTick: U64, ttlTicks: U64)

  datatype LeaseCommit = LeaseCommit(binding: ChainBinding, expectedRevision: U64)

  datatype UploadLease = UploadLease(
    agent: AgentId, blocks: seq<BlockId>, createdAt: nat, committed: Option<LeaseCommit>)

  datatype LeaseState = LeaseState(
    initialized: bool,
    records: map<BlockId, UploadLease>,
    revisions: map<CacheKey, U64>,
    cancelled: map<BlockId, nat>,
    clock: U64,
    deadlines: map<BlockId, LeaseDeadline>,
    expired: map<BlockId, nat>)

  /** Cluster membership is carried along and never inspected. */
  datatype Membership = Membership(position: Option<LogId>, nodes: set<nat>)

  datatype State = State(
    fences: map<BlockId, nat>,
    leases: LeaseState,
    replicas: map<BlockId, nat>,
    agents: map<AgentId, AgentRecord>,
    bindings: map<CacheKey, BindingRecord>,
    children: map<CacheKey, seq<CacheKey>>,
    blockRefs: map<BlockId, nat>,
    lastApplied: Option<LogId>,
    membership: Membership)

  const NO_LEASES := LeaseState(false, map[], map[], map[], 0, map[], map[])

  const EMPTY := State(map[], NO_LEASES, map[], map[], map[], map[], map[], None, Membership(None, {}))

  datatype Request =
    | RequireReplicas(blocks: seq<BlockId>, replicas: nat)
    | RegisterAgent(agent: AgentId, displayName: Bytes)
    | BindPrefix(agent: AgentId, binding: ChainBinding)
    | BindChain(agent: AgentId, bindings: seq<ChainBinding>)
    | BeginUploadLease(lease: BlockId, agent: AgentId, blocks: seq<BlockId>)
    | CommitUploadLease(lease: BlockId, agent: AgentId, binding: ChainBinding, expectedRevision: U64)
    | CancelUploadLease(lease: BlockId, agent: AgentId)
    | RenewUploadLease(lease: BlockId, agent: AgentId, expectedGeneration: U64, ttlTicks: U64)
    | AdvanceLeaseClock(expectedTick: U64)
    | ExpireUploadLease(lease: BlockId, generation: U64, deadlineTick: U64)

  /** Why a request was refused, one constructor per message of the source. */
  datatype Reason =
    | FenceCapacity | InvalidReplicas | ReplicaCapacity
    | InvalidReservation | LeaseIsExpired | LeaseIsCancelled | LeaseIdTaken | LeaseCapacity
    | InvalidBinding | UnknownLease | OwnerOrBlocksMismatch | LeaseConsumed | ForeignBinding | RevisionConflict
    | OwnerMismatch | CommittedLease
    | NotPending | InvalidRenewal | GenerationConflict | ClockExhausted | DeadlineNotExtended
    | ClockConflict | StaleExpiry

  datatype Response =
    | ReplicasRequired
    | Rejected(reason: Reason)
    | Registered
    | Bound
    | LeaseReserved
    | LeaseCancelled
    | LeaseRenewed(generation: U64, deadlineTick: U64)
    | LeaseClockAdvanced
    | LeaseExpired

  datatype Outcome = Outcome(state: State, response: Response)

  // ---------------------------------------------------------- small queries

  /** Position recorded by a transition: the index being applied. */
  function At(s: State): (at: nat)
  {
    if s.lastApplied.Some? then s.lastApplied.value.index else 0
  }

  /** The last applied index, -1 before the first entry. */
  function Pos(s: State): (p: int)
  {
    if s.lastApplied.Some? then s.lastApplied.value.index else -1
  }

  function BlockSet(blocks: seq<BlockId>): (r: set<BlockId>)
    ensures forall b :: b in r <==> b in blocks
  {
    set b | b in blocks
  }

  predicate ValidKey(key: CacheKey)
  {
    && |key.fingerprint.modelId| <= MAX_FINGERPRINT_FIELD
    && |key.fingerprint.tokenizerHash| <= MAX_FINGERPRINT_FIELD
    && |key.fingerprint.kvLayout| <= MAX_FINGERPRINT_FIELD
  }

  predicate ValidBinding(binding: ChainBinding)
  {
    && ValidKey(binding.key)
    && (binding.parent.Some? ==>
          ValidKey(binding.parent.value) && binding.parent.value.fingerprint == binding.key.fingerprint)
  }

  predicate IsExpired(l: LeaseState, id: BlockId)
  {
    && id in l.records && l.records[id].committed.None?
    && id !in l.cancelled
    && (id in l.expired || (id in l.deadlines && l.deadlines[id].deadlineTick <= l.clock))
  }

  function Sizes(records: map<BlockId, UploadLease>): (sizes: map<BlockId, nat>)
  {
    map id | id in records :: |records[id].blocks|
  }

  /** Blocks named by all reservations together. */
  ghost function Reserved(records: map<BlockId, UploadLease>): (n: nat)
  {
    Total(Sizes(records))
  }

  function Revision(l: LeaseState, key: CacheKey): (r: U64)
  {
    if key in l.revisions then l.revisions[key] else 0
  }

  // ------------------------------------------------------------- bindings

  function RefCount(refs: map<BlockId, nat>, b: BlockId): (n: nat)
  {
    if b in refs then refs[b] else 0
  }

  /** One saturating decrement; a counter that reaches zero is removed. */
  function ReleaseOne(refs: map<BlockId, nat>, b: BlockId): (r: map<BlockId, nat>)
  {
    if b !in refs then refs
    else if refs[b] <= 1 then refs - {b}
    else refs[b := refs[b] - 1]
  }

  function Release(refs: map<BlockId, nat>, blocks: seq<BlockId>): (r: map<BlockId, nat>)
    decreases |blocks|
  {
    if blocks == [] then refs else Release(ReleaseOne(refs, blocks[0]), blocks[1..])
  }

  function Acquire(refs: map<BlockId, nat>, blocks: seq<BlockId>): (r: map<BlockId, nat>)
    decreases |blocks|
  {
    if blocks == [] then refs
    else Acquire(refs[blocks[0] := RefCount(refs, blocks[0]) + 1], blocks[1..])
  }

  function OldBlocks(s: State, key: CacheKey): (r: seq<BlockId>)
  {
    if key in s.bindings then s.bindings[key].blocks else []
  }

  function Children(children: map<CacheKey, seq<CacheKey>>, parent: CacheKey): (kids: seq<CacheKey>)
  {
    if parent in children then children[parent] else []
  }

  /** Record the tree edge of a binding that declares its parent. */
  function AddChild(children: map<CacheKey, seq<CacheKey>>, parent: Option<CacheKey>, kid: CacheKey)
    : (r: map<CacheKey, seq<CacheKey>>)
  {
    if parent.None? then children
    else
      var kids := Children(children, parent.value);
      children[parent.value := if kid in kids then kids else kids + [kid]]
  }

  /** Every bind after activation advances the key's revision, saturating. */
  function BumpRevision(l: LeaseState, key: CacheKey): (r: LeaseState)
  {
    if !l.initialized then l
    else
      var now := Revision(l, key);
      l.(revisions := l.revisions[key := if now == U64_MAX then now else now + 1])
  }

  function BindOne(s: State, agent: AgentId, item: ChainBinding): (r: State)
    ensures r == s.(leases := s.leases.(revisions := r.leases.revisions),
                    blockRefs := r.blockRefs, bindings := r.bindings, children := r.children)
  {
    s.(leases := BumpRevision(s.leases, item.key),
       blockRefs := Acquire(Release(s.blockRefs, OldBlocks(s, item.key)), item.blocks),
       bindings := s.bindings[item.key := BindingRecord(agent, item.blocks)],
       children := AddChild(s.children, item.parent, item.key))
  }

  function BindAll(s: State, agent: AgentId, items: seq<ChainBinding>): (r: State)
    decreases |items|
  {
    if items == [] then s else BindAll(BindOne(s, agent, items[0]), agent, items[1..])
  }

  // --------------------------------------------------------------- leases

  ghost function Reserve(s: State, id: BlockId, agent: AgentId, blocks: seq<BlockId>): (o: Outcome)
    ensures o.state == s.(leases := s.leases.(
              initialized := o.state.leases.initialized,
              revisions := o.state.leases.revisions,
              records := o.state.leases.records))
  {
    if blocks == [] || |blocks| > MAX_LEASE_BLOCKS || agent !in s.agents then
      Outcome(s, Rejected(InvalidReservation))
    else
      var l := if s.leases.initialized then s.leases else s.leases.(initialized := true, revisions := map[]);
      var s1 := s.(leases := l);
      if id in l.records then
        if l.records[id].agent != agent || l.records[id].blocks != blocks then
          Outcome(s1, Rejected(LeaseIdTaken))
        else if IsExpired(l, id) then
          Outcome(s1, Rejected(LeaseIsExpired))
        else if id in l.cancelled then
          Outcome(s1, Rejected(LeaseIsCancelled))
        else
          Outcome(s1, LeaseReserved)
      else if |l.records| >= MAX_LEASES || Reserved(l.records) + |blocks| > MAX_RESERVED_BLOCKS then
        Outcome(s1, Rejected(LeaseCapacity))
      else
        Outcome(s1.(leases := l.(records := l.records[id := UploadLease(agent, blocks, At(s), None)])),
                LeaseReserved)
  }

  /** `Ok(true)` applies the binding, `Ok(false)` acknowledges an exact retry. */
  function ValidateCommit(s: State, id: BlockId, agent: AgentId, binding: ChainBinding, expected: U64)
    : (r: Result<bool, Reason>)
  {
    var l := s.leases;
    if !ValidBinding(binding) then Err(InvalidBinding)
    else if id !in l.records then Err(UnknownLease)
    else if l.records[id].agent != agent || l.records[id].blocks != binding.blocks then Err(OwnerOrBlocksMismatch)
    else if id in l.cancelled then Err(LeaseIsCancelled)
    else if IsExpired(l, id) then Err(LeaseIsExpired)
    else if l.records[id].committed.Some? then
      var prior := l.records[id].committed.value;
      if prior.expectedRevision == expected && prior.binding == binding then Ok(false) else Err(LeaseConsumed)
    else if binding.key in s.bindings && s.bindings[binding.key].agent != agent then Err(ForeignBinding)
    else if Revision(l, binding.key) == U64_MAX || Revision(l, binding.key) != expected then Err(RevisionConflict)
    else Ok(true)
  }

  function MarkCommitted(s: State, id: BlockId, commit: LeaseCommit): (r: State)
    requires id in s.leases.records
  {
    s.(leases := s.leases.(records := s.leases.records[
      id := s.leases.records[id].(committed := Some(commit))]))
  }

  function Commit(s: State, id: BlockId, agent: AgentId, binding: ChainBinding, expected: U64): (o: Outcome)
    ensures o.state == s.(
              leases := s.leases.(revisions := o.state.leases.revisions, records := o.state.leases.records),
              blockRefs := o.state.blockRefs, bindings := o.state.bindings, children := o.state.children)
  {
    match ValidateCommit(s, id, agent, binding, expected)
    case Err(reason) => Outcome(s, Rejected(reason))
    case Ok(apply) =>
      if !apply then Outcome(s, Bound)
      else Outcome(MarkCommitted(BindOne(s, agent, binding), id, LeaseCommit(binding, expected)), Bound)
  }

  function Cancel(s: State, id: BlockId, agent: AgentId): (o: Outcome)
    ensures o.state == s.(leases := s.leases.(cancelled := o.state.leases.cancelled))
  {
    var l := s.leases;
    if id !in l.records then Outcome(s, Rejected(UnknownLease))
    else if l.records[id].agent != agent then Outcome(s, Rejected(OwnerMismatch))
    else if l.records[id].committed.Some? then Outcome(s, Rejected(CommittedLease))
    else if IsExpired(l, id) then Outcome(s, Rejected(LeaseIsExpired))
    else if id in l.cancelled then Outcome(s, LeaseCancelled)
    else Outcome(s.(leases := l.(cancelled := l.cancelled[id := At(s)])), LeaseCancelled)
  }

  function Generation(l: LeaseState, id: BlockId): (g: U64)
  {
    if id in l.deadlines then l.deadlines[id].generation else 0
  }

  function Renew(s: State, id: BlockId, agent: AgentId, expected: U64, ttl: U64): (o: Outcome)
    ensures o.state == s.(leases := s.leases.(deadlines := o.state.leases.deadlines))
  {
    var l := s.leases;
    if id !in l.records then Outcome(s, Rejected(UnknownLease))
    else if l.records[id].agent != agent || l.records[id].committed.Some? || id in l.cancelled || IsExpired(l, id) then
      Outcome(s, Rejected(NotPending))
    else if !(1 <= ttl <= MAX_TTL_TICKS) || expected == U64_MAX then Outcome(s, Rejected(InvalidRenewal))
    else if id in l.deadlines && l.deadlines[id].generation == expected + 1 && l.deadlines[id].ttlTicks == ttl then
      Outcome(s, LeaseRenewed(l.deadlines[id].generation, l.deadlines[id].deadlineTick))
    else if expected != Generation(l, id) then Outcome(s, Rejected(GenerationConflict))
    else if l.clock + ttl > U64_MAX then Outcome(s, Rejected(ClockExhausted))
    else if id in l.deadlines && l.deadlines[id].deadlineTick >= l.clock + ttl then
      Outcome(s, Rejected(DeadlineNotExtended))
    else
      Outcome(s.(leases := l.(deadlines := l.deadlines[id := LeaseDeadline(expected + 1, l.clock + ttl, ttl)])),
              LeaseRenewed(expected + 1, l.clock + ttl))
  }

  function Advance(s: State, expected: U64): (o: Outcome)
    ensures o.state == s.(leases := s.leases.(clock := o.state.leases.clock))
  {
    if expected < s.leases.clock then Outcome(s, LeaseClockAdvanced)
    else if expected != s.leases.clock then Outcome(s, Rejected(ClockConflict))
    else if expected == U64_MAX then Outcome(s, Rejected(ClockExhausted))
    else Outcome(s.(leases := s.leases.(clock := expected + 1)), LeaseClockAdvanced)
  }

  function Expire(s: State, id: BlockId, generation: U64, deadlineTick: U64): (o: Outcome)
    ensures o.state == s.(leases := s.leases.(expired := o.state.leases.expired))
  {
    var l := s.leases;
    if || !IsExpired(l, id) || id !in l.deadlines
       || l.deadlines[id].generation != generation || l.deadlines[id].deadlineTick != deadlineTick
    then Outcome(s, Rejected(StaleExpiry))
    else if id in l.expired then Outcome(s, LeaseExpired)
    else Outcome(s.(leases := l.(expired := l.expired[id := At(s)])), LeaseExpired)
  }

  // ----------------------------------------------------- the whole machine

  function Require(replicas: map<BlockId, nat>, blocks: seq<BlockId>, n: nat): (r: map<BlockId, nat>)
    decreases |blocks|
  {
    if blocks == [] then replicas
    else
      var b := blocks[0];
      var now := if b in replicas && replicas[b] >= n then replicas[b] else n;
      Require(replicas[b := now], blocks[1..], n)
  }

  function RequireMany(s: State, blocks: seq<BlockId>, n: nat): (o: Outcome)
    ensures o.state == s.(replicas := o.state.replicas)
  {
    if !(2 <= n <= 16) || |blocks| > MAX_REPLICA_BATCH then Outcome(s, Rejected(InvalidReplicas))
    else
      var next := Require(s.replicas, blocks, n);
      if |next| > MAX_REPLICA_ENTRIES then Outcome(s, Rejected(ReplicaCapacity))
      else Outcome(s.(replicas := next), ReplicasRequired)
  }

  ghost function ApplyUnfenced(s: State, req: Request): (o: Outcome)
  {
    match req
    case RenewUploadLease(lease, agent, expected, ttl) => Renew(s, lease, agent, expected, ttl)
    case AdvanceLeaseClock(tick) => Advance(s, tick)
    case ExpireUploadLease(lease, generation, tick) => Expire(s, lease, generation, tick)
    case CancelUploadLease(lease, agent) => Cancel(s, lease, agent)
    case BeginUploadLease(lease, agent, blocks) => Reserve(s, lease, agent, blocks)
    case CommitUploadLease(lease, agent, binding, expected) => Commit(s, lease, agent, binding, expected)
    case RequireReplicas(blocks, n) => RequireMany(s, blocks, n)
    case RegisterAgent(agent, name) =>
      Outcome(s.(agents := s.agents[agent := AgentRecord(name, At(s))]), Registered)
    case BindChain(agent, items) => Outcome(BindAll(s, agent, items), Bound)
    case BindPrefix(agent, item) => Outcome(BindOne(s, agent, item), Bound)
  }

  function BindingTouches(s: State, item: ChainBinding): (r: set<BlockId>)
  {
    BlockSet(item.blocks) + BlockSet(OldBlocks(s, item.key))
  }

  function ChainTouches(s: State, items: seq<ChainBinding>): (r: set<BlockId>)
    decreases |items|
  {
    if items == [] then {} else BindingTouches(s, items[0]) + ChainTouches(s, items[1..])
  }

  /** Blocks whose fence an accepted request moves. */
  function Touched(s: State, req: Request): (r: set<BlockId>)
  {
    match req
    case BindPrefix(_, item) => BindingTouches(s, item)
    case BindChain(_, items) => ChainTouches(s, items)
    case CommitUploadLease(_, _, item, _) => BindingTouches(s, item)
    case BeginUploadLease(_, _, blocks) => BlockSet(blocks)
    case RequireReplicas(blocks, _) => BlockSet(blocks)
    case RenewUploadLease(lease, _, _, _) =>
      if lease in s.leases.records then BlockSet(s.leases.records[lease].blocks) else {}
    case _ => {}
  }

  predicate FencesFit(s: State, touched: set<BlockId>)
  {
    |s.fences| + |touched - s.fences.Keys| <= MAX_BLOCK_FENCES
  }

  function Fence(fences: map<BlockId, nat>, touched: set<BlockId>, at: nat): (r: map<BlockId, nat>)
  {
    map b | b in fences.Keys + touched :: if b in touched then at else fences[b]
  }

  ghost function ApplyOne(s: State, req: Request): (o: Outcome)
  {
    var touched := Touched(s, req);
    if !FencesFit(s, touched) then Outcome(s, Rejected(FenceCapacity))
    else
      var o := ApplyUnfenced(s, req);
      if o.response.Rejected? then o
      else o.(state := o.state.(fences := Fence(o.state.fences, touched, At(o.state))))
  }

  datatype Payload = Blank | Normal(request: Request) | MembershipChange(nodes: set<nat>)

  datatype Entry = Entry(id: LogId, payload: Payload)

  ghost function ApplyEntry(s: State, e: Entry): (o: Outcome)
  {
    var s1 := s.(lastApplied := Some(e.id));
    match e.payload
    case Blank => Outcome(s1, Registered)
    case Normal(req) => ApplyOne(s1, req)
    case MembershipChange(nodes) => Outcome(s1.(membership := Membership(Some(e.id), nodes)), Registered)
  }

  // ----------------------------------------------------------------- runs

  ghost function Run(s: State, log: seq<Entry>): (r: State)
    decreases |log|
  {
    if log == [] then s else Run(ApplyEntry(s, log[0]).state, log[1..])
  }

  /** The log hands out strictly increasing indices, all after `from`. */
  ghost predicate Increasing(from: int, log: seq<Entry>)
    decreases |log|
  {
    log == [] || (from < log[0].id.index && Increasing(log[0].id.index, log[1..]))
  }

  ghost predicate Reachable(s: State)
  {
    exists log :: Increasing(-1, log) && s == Run(EMPTY, log)
  }
}
