/** Fence soundness: an unmoved fence proves that nothing about a block changed. */
module BlockFences {
  import opened Core
  import opened ControlState
  import opened ControlInvariant

  datatype LeaseView = LeaseView(lease: UploadLease, deadline: Option<LeaseDeadline>)

  /** Everything the metadata says about one block, cancellation and expiry
      markers excepted. */
  datatype BlockView = BlockView(
    bindings: map<CacheKey, BindingRecord>,
    refs: nat,
    replicas: Option<nat>,
    leases: map<BlockId, LeaseView>)

  function NamingBindings(bindings: map<CacheKey, BindingRecord>, b: BlockId): (r: map<CacheKey, BindingRecord>)
  {
    map k | k in bindings && b in bindings[k].blocks :: bindings[k]
  }

  function NamingLeases(
    records: map<BlockId, UploadLease>, deadlines: map<BlockId, LeaseDeadline>, b: BlockId)
    : (r: map<BlockId, LeaseView>)
  {
    map id | id in records && b in records[id].blocks :: LeaseView(records[id], Lookup(deadlines, id))
  }

  function View(s: State, b: BlockId): (v: BlockView)
  {
    BlockView(NamingBindings(s.bindings, b), RefCount(s.blockRefs, b), Lookup(s.replicas, b),
              NamingLeases(s.leases.records, s.leases.deadlines, b))
  }

  function FenceOf(s: State, b: BlockId): (f: Option<nat>)
  {
    Lookup(s.fences, b)
  }

  // ------------------------------------------- untouched blocks stay the same

  lemma {:induction false} ReleaseOthers(refs: map<BlockId, nat>, blocks: seq<BlockId>, b: BlockId)
    requires b !in blocks
    ensures RefCount(Release(refs, blocks), b) == RefCount(refs, b)
    decreases |blocks|
  {
    if blocks != [] { ReleaseOthers(ReleaseOne(refs, blocks[0]), blocks[1..], b); }
  }

  lemma {:induction false} AcquireOthers(refs: map<BlockId, nat>, blocks: seq<BlockId>, b: BlockId)
    requires b !in blocks
    ensures RefCount(Acquire(refs, blocks), b) == RefCount(refs, b)
    decreases |blocks|
  {
    if blocks != [] {
      AcquireOthers(refs[blocks[0] := RefCount(refs, blocks[0]) + 1], blocks[1..], b);
    }
  }

  lemma {:induction false} RequireOthers(replicas: map<BlockId, nat>, blocks: seq<BlockId>, n: nat, b: BlockId)
    requires b !in blocks
    ensures Lookup(Require(replicas, blocks, n), b) == Lookup(replicas, b)
    decreases |blocks|
  {
    if blocks != [] {
      var c := blocks[0];
      RequireOthers(replicas[c := if c in replicas && replicas[c] >= n then replicas[c] else n], blocks[1..], n, b);
    }
  }

  lemma BindOneUntouched(s: State, agent: AgentId, item: ChainBinding, b: BlockId)
    requires b !in BindingTouches(s, item)
    ensures View(BindOne(s, agent, item), b) == View(s, b)
  {
    ReleaseOthers(s.blockRefs, OldBlocks(s, item.key), b);
    AcquireOthers(Release(s.blockRefs, OldBlocks(s, item.key)), item.blocks, b);
    assert NamingBindings(BindOne(s, agent, item).bindings, b) == NamingBindings(s.bindings, b);
  }

  /** Earlier links of a chain cannot make a later link touch a new block. */
  lemma {:induction false} ChainTouchesShrink(s: State, agent: AgentId, item: ChainBinding, items: seq<ChainBinding>,
                                              b: BlockId)
    requires b !in BindingTouches(s, item) && b !in ChainTouches(s, items)
    ensures b !in ChainTouches(BindOne(s, agent, item), items)
    decreases |items|
  {
    if items != [] { ChainTouchesShrink(s, agent, item, items[1..], b); }
  }

  lemma {:induction false} BindAllUntouched(s: State, agent: AgentId, items: seq<ChainBinding>, b: BlockId)
    requires b !in ChainTouches(s, items)
    ensures View(BindAll(s, agent, items), b) == View(s, b)
    decreases |items|
  {
    hide View, BindingTouches, BindOne;
    if items != [] {
      BindOneUntouched(s, agent, items[0], b);
      ChainTouchesShrink(s, agent, items[0], items[1..], b);
      BindAllUntouched(BindOne(s, agent, items[0]), agent, items[1..], b);
    }
  }

  lemma ReserveUntouched(s: State, id: BlockId, agent: AgentId, blocks: seq<BlockId>, b: BlockId)
    requires ActivationOk(s.leases) && b !in blocks
    ensures View(Reserve(s, id, agent, blocks).state, b) == View(s, b)
  {
    ReserveCases(s, id, agent, blocks);
    var t := Reserve(s, id, agent, blocks).state;
    hide Reserve;
    assert NamingLeases(t.leases.records, t.leases.deadlines, b)
        == NamingLeases(s.leases.records, s.leases.deadlines, b);
  }

  lemma CommitUntouched(s: State, id: BlockId, agent: AgentId, binding: ChainBinding, expected: U64, b: BlockId)
    requires b !in BindingTouches(s, binding)
    ensures View(Commit(s, id, agent, binding, expected).state, b) == View(s, b)
  {
    hide ValidBinding, IsExpired, Acquire, Release, AddChild, BumpRevision, NamingLeases, BindingTouches;
    if ValidateCommit(s, id, agent, binding, expected) == Ok(true) {
      BindOneUntouched(s, agent, binding, b);
      BlocksUntouched(s, binding, b);
      MarkNamesSame(s.leases.records, s.leases.deadlines, id, LeaseCommit(binding, expected), b);
    }
  }

  lemma BlocksUntouched(s: State, binding: ChainBinding, b: BlockId)
    requires b !in BindingTouches(s, binding)
    ensures b !in binding.blocks
  {
  }

  lemma MarkNamesSame(
    records: map<BlockId, UploadLease>, deadlines: map<BlockId, LeaseDeadline>, id: BlockId, c: LeaseCommit, b: BlockId)
    requires id in records && b !in records[id].blocks
    ensures NamingLeases(records[id := records[id].(committed := Some(c))], deadlines, b) ==
            NamingLeases(records, deadlines, b)
  {
  }

  lemma RenewUntouched(s: State, id: BlockId, agent: AgentId, expected: U64, ttl: U64, b: BlockId)
    requires id in s.leases.records ==> b !in s.leases.records[id].blocks
    ensures View(Renew(s, id, agent, expected, ttl).state, b) == View(s, b)
  {
    var t := Renew(s, id, agent, expected, ttl).state;
    assert NamingLeases(t.leases.records, t.leases.deadlines, b)
        == NamingLeases(s.leases.records, s.leases.deadlines, b);
  }

  lemma UntouchedKeepsView(s: State, req: Request, b: BlockId)
    requires ActivationOk(s.leases) && b !in Touched(s, req)
    ensures View(ApplyUnfenced(s, req).state, b) == View(s, b)
  {
    match req
    case BindPrefix(agent, item) => BindOneUntouched(s, agent, item, b);
    case BindChain(agent, items) => BindAllUntouched(s, agent, items, b);
    case CommitUploadLease(lease, agent, item, expected) => CommitUntouched(s, lease, agent, item, expected, b);
    case BeginUploadLease(lease, agent, blocks) => ReserveUntouched(s, lease, agent, blocks, b);
    case RequireReplicas(blocks, n) => RequireOthers(s.replicas, blocks, n, b);
    case RenewUploadLease(lease, agent, expected, ttl) => RenewUntouched(s, lease, agent, expected, ttl, b);
    case _ =>
  }

  // ------------------------------------------------------------- over runs

  lemma AcceptedMovesFence(s: State, req: Request, b: BlockId)
    requires ActivationOk(s.leases) && !ApplyOne(s, req).response.Rejected?
    ensures var t := ApplyOne(s, req).state;
            if b in Touched(s, req) then FenceOf(t, b) == Some(At(s))
            else FenceOf(t, b) == FenceOf(s, b) && View(t, b) == View(s, b)
  {
    hide Touched, ApplyUnfenced, NamingBindings, NamingLeases, RefCount, FencesFit;
    UnfencedFrame(s, req);
    if b !in Touched(s, req) { UntouchedKeepsView(s, req, b); }
  }

  /** One entry either leaves a block and its fence alone or stamps the fence
      with the entry's own index. */
  lemma EntryMovesFence(s: State, e: Entry, b: BlockId)
    requires ActivationOk(s.leases)
    ensures var t := ApplyEntry(s, e).state;
            || (FenceOf(t, b) == FenceOf(s, b) && View(t, b) == View(s, b))
            || FenceOf(t, b) == Some(e.id.index)
  {
    hide Touched, ApplyOne, NamingBindings, NamingLeases, RefCount;
    if e.payload.Normal? {
      var s1, req := s.(lastApplied := Some(e.id)), e.payload.request;
      RejectedChangesNothing(s1, req);
      if !ApplyOne(s1, req).response.Rejected? { AcceptedMovesFence(s1, req, b); }
    }
  }

  lemma {:induction false} RunMovesFence(s: State, log: seq<Entry>, b: BlockId)
    requires Inv(s) && Increasing(Pos(s), log)
    ensures var t := Run(s, log);
            || (FenceOf(t, b) == FenceOf(s, b) && View(t, b) == View(s, b))
            || (FenceOf(t, b).Some? && FenceOf(t, b).value > Pos(s))
    decreases |log|
  {
    assert ActivationOk(s.leases);
    hide Inv, View, ApplyEntry, FenceOf;
    if log != [] {
      EntryKeepsInv(s, log[0]);
      EntryMovesFence(s, log[0], b);
      RunMovesFence(ApplyEntry(s, log[0]).state, log[1..], b);
    }
  }

  /** Equal fence entries at two points of a run, present or absent, mean that
      the bindings naming the block, its reference count, its replica
      requirement, the leases naming it and those leases' commits and
      deadlines are all what they were. */
  lemma FenceSound(before: seq<Entry>, between: seq<Entry>, b: BlockId)
    requires Increasing(-1, before) && Increasing(Pos(Run(EMPTY, before)), between)
    requires FenceOf(Run(Run(EMPTY, before), between), b) == FenceOf(Run(EMPTY, before), b)
    ensures View(Run(Run(EMPTY, before), between), b) == View(Run(EMPTY, before), b)
  {
    hide View, Run;
    var s := Run(EMPTY, before);
    EmptyInv();
    RunKeepsInv(EMPTY, before);
    RunMovesFence(s, between, b);
  }
}
