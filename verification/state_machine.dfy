/** The metadata state machine as it runs: one mutable state, updated in place
    under its lock, entry by entry. */
module StateMachine {
  import opened Core
  import opened MapSums
  import opened ControlState
  import opened ControlInvariant
  import opened LeaseExpiry

  /** Sum of the block counts of all reservations. */
  method ReservedBlocks(records: map<BlockId, UploadLease>) returns (n: nat)
    ensures n == Reserved(records)
  {
    n := 0;
    var rest := records.Keys;
    ghost var left := Sizes(records);
    while rest != {}
      invariant rest <= records.Keys && left.Keys == rest
      invariant forall id :: id in rest ==> left[id] == |records[id].blocks|
      invariant n + Total(left) == Reserved(records)
      decreases rest
    {
      var id :| id in rest;
      TotalPick(left, id);
      n := n + |records[id].blocks|;
      left := left - {id};
      rest := rest - {id};
    }
  }

  /** Up to sixteen due leases, in no particular order. */
  method PickDue(l: LeaseState) returns (due: seq<BlockId>)
    ensures Picks(l, due)
  {
    due := [];
    var rest := Due(l);
    while rest != {} && |due| < DUE_PER_ROUND
      invariant rest <= Due(l) && |due| + |rest| == |Due(l)| && |due| <= DUE_PER_ROUND
      invariant Distinct(due) && forall i :: 0 <= i < |due| ==> due[i] in Due(l) && due[i] !in rest
      decreases rest
    {
      var id :| id in rest;
      due := due + [id];
      rest := rest - {id};
    }
  }

  /** The responses a log produces. */
  ghost function Replies(s: State, log: seq<Entry>): (replies: seq<Response>)
    decreases |log|
  {
    if log == [] then [] else [ApplyEntry(s, log[0]).response] + Replies(ApplyEntry(s, log[0]).state, log[1..])
  }

  class MetadataState {
    var fences: map<BlockId, nat>
    var leases: LeaseState
    var replicas: map<BlockId, nat>
    var agents: map<AgentId, AgentRecord>
    var bindings: map<CacheKey, BindingRecord>
    var children: map<CacheKey, seq<CacheKey>>
    var blockRefs: map<BlockId, nat>
    var lastApplied: Option<LogId>
    var membership: Membership

    ghost function Value(): (s: State)
      reads this
    {
      State(fences, leases, replicas, agents, bindings, children, blockRefs, lastApplied, membership)
    }

    constructor ()
      ensures Value() == EMPTY
    {
      fences, leases, replicas, agents := map[], NO_LEASES, map[], map[];
      bindings, children, blockRefs := map[], map[], map[];
      lastApplied, membership := None, Membership(None, {});
    }

    method Position() returns (at: nat)
      ensures at == At(Value())
    {
      at := if lastApplied.Some? then lastApplied.value.index else 0;
    }

    // --------------------------------------------------------------- leases

    method Reserve(id: BlockId, agent: AgentId, blocks: seq<BlockId>) returns (r: Response)
      modifies this`leases
      ensures Outcome(Value(), r) == ControlState.Reserve(old(Value()), id, agent, blocks)
    {
      if blocks == [] || |blocks| > MAX_LEASE_BLOCKS || agent !in agents {
        return Rejected(InvalidReservation);
      }
      if !leases.initialized {
        leases := leases.(initialized := true, revisions := map[]);
      }
      if id in leases.records {
        var prior := leases.records[id];
        if prior.agent == agent && prior.blocks == blocks {
          if IsExpired(leases, id) {
            return Rejected(LeaseIsExpired);
          } else if id in leases.cancelled {
            return Rejected(LeaseIsCancelled);
          } else {
            return LeaseReserved;
          }
        } else {
          return Rejected(LeaseIdTaken);
        }
      }
      var reserved := ReservedBlocks(leases.records);
      if |leases.records| >= MAX_LEASES || reserved + |blocks| > MAX_RESERVED_BLOCKS {
        return Rejected(LeaseCapacity);
      }
      var at := Position();
      leases := leases.(records := leases.records[id := UploadLease(agent, blocks, at, None)]);
      r := LeaseReserved;
    }

    method Cancel(id: BlockId, agent: AgentId) returns (r: Response)
      modifies this`leases
      ensures Outcome(Value(), r) == ControlState.Cancel(old(Value()), id, agent)
    {
      if id !in leases.records {
        return Rejected(UnknownLease);
      }
      if leases.records[id].agent != agent {
        return Rejected(OwnerMismatch);
      }
      if leases.records[id].committed.Some? {
        return Rejected(CommittedLease);
      }
      if IsExpired(leases, id) {
        return Rejected(LeaseIsExpired);
      }
      if id !in leases.cancelled {
        var at := Position();
        leases := leases.(cancelled := leases.cancelled[id := at]);
      }
      r := LeaseCancelled;
    }

    method Renew(id: BlockId, agent: AgentId, expected: U64, ttl: U64) returns (r: Response)
      modifies this`leases
      ensures Outcome(Value(), r) == ControlState.Renew(old(Value()), id, agent, expected, ttl)
    {
      if id !in leases.records {
        return Rejected(UnknownLease);
      }
      var lease := leases.records[id];
      if lease.agent != agent || lease.committed.Some? || id in leases.cancelled || IsExpired(leases, id) {
        return Rejected(NotPending);
      }
      if !(1 <= ttl <= MAX_TTL_TICKS) || expected == U64_MAX {
        return Rejected(InvalidRenewal);
      }
      if id in leases.deadlines {
        var prior := leases.deadlines[id];
        if prior.generation == expected + 1 && prior.ttlTicks == ttl {
          return LeaseRenewed(prior.generation, prior.deadlineTick);
        }
      }
      var current := if id in leases.deadlines then leases.deadlines[id].generation else 0;
      if expected != current {
        return Rejected(GenerationConflict);
      }
      if leases.clock + ttl > U64_MAX {
        return Rejected(ClockExhausted);
      }
      var deadlineTick: U64 := leases.clock + ttl;
      if id in leases.deadlines && leases.deadlines[id].deadlineTick >= deadlineTick {
        return Rejected(DeadlineNotExtended);
      }
      var generation: U64 := current + 1;
      leases := leases.(deadlines := leases.deadlines[id := LeaseDeadline(generation, deadlineTick, ttl)]);
      r := LeaseRenewed(generation, deadlineTick);
    }

    method Advance(expected: U64) returns (r: Response)
      modifies this`leases
      ensures Outcome(Value(), r) == ControlState.Advance(old(Value()), expected)
    {
      if expected < leases.clock {
        return LeaseClockAdvanced;
      }
      if expected != leases.clock {
        return Rejected(ClockConflict);
      }
      if expected == U64_MAX {
        return Rejected(ClockExhausted);
      }
      leases := leases.(clock := expected + 1);
      r := LeaseClockAdvanced;
    }

    method Expire(id: BlockId, generation: U64, deadlineTick: U64) returns (r: Response)
      modifies this`leases
      ensures Outcome(Value(), r) == ControlState.Expire(old(Value()), id, generation, deadlineTick)
    {
      if || !IsExpired(leases, id) || id !in leases.deadlines
         || leases.deadlines[id].generation != generation || leases.deadlines[id].deadlineTick != deadlineTick {
        return Rejected(StaleExpiry);
      }
      var at := Position();
      if id !in leases.expired {
        leases := leases.(expired := leases.expired[id := at]);
      }
      r := LeaseExpired;
    }

    // -------------------------------------------------------------- bindings

    /** Give back one reference per listed block. */
    method ReleaseBlocks(blocks: seq<BlockId>)
      modifies this`blockRefs
      ensures blockRefs == Release(old(blockRefs), blocks)
    {
      for i := 0 to |blocks|
        invariant Release(blockRefs, blocks[i..]) == Release(old(blockRefs), blocks)
      {
        var b := blocks[i];
        assert blocks[i..][1..] == blocks[i + 1..];
        if b in blockRefs {
          var n := if blockRefs[b] == 0 then 0 else blockRefs[b] - 1;
          if n == 0 {
            blockRefs := blockRefs - {b};
          } else {
            blockRefs := blockRefs[b := n];
          }
        }
      }
    }

    method AcquireBlocks(blocks: seq<BlockId>)
      modifies this`blockRefs
      ensures blockRefs == Acquire(old(blockRefs), blocks)
    {
      for i := 0 to |blocks|
        invariant Acquire(blockRefs, blocks[i..]) == Acquire(old(blockRefs), blocks)
      {
        var b := blocks[i];
        assert blocks[i..][1..] == blocks[i + 1..];
        blockRefs := blockRefs[b := (if b in blockRefs then blockRefs[b] else 0) + 1];
      }
    }

    method LinkChild(parent: CacheKey, kid: CacheKey)
      modifies this`children
      ensures children == AddChild(old(children), Some(parent), kid)
    {
      var kids := if parent in children then children[parent] else [];
      if kid !in kids {
        kids := kids + [kid];
      }
      children := children[parent := kids];
    }

    method BindOne(agent: AgentId, item: ChainBinding)
      modifies this`leases, this`blockRefs, this`bindings, this`children
      ensures Value() == ControlState.BindOne(old(Value()), agent, item)
    {
      assert Release(blockRefs, []) == blockRefs;
      hide Acquire, Release;
      if leases.initialized {
        var revision := if item.key in leases.revisions then leases.revisions[item.key] else 0;
        leases := leases.(revisions := leases.revisions[
          item.key := if revision == U64_MAX then U64_MAX else revision + 1]);
      }
      if item.key in bindings {
        ReleaseBlocks(bindings[item.key].blocks);
      }
      AcquireBlocks(item.blocks);
      bindings := bindings[item.key := BindingRecord(agent, item.blocks)];
      if item.parent.Some? {
        LinkChild(item.parent.value, item.key);
      }
    }

    method BindChain(agent: AgentId, items: seq<ChainBinding>)
      modifies this`leases, this`blockRefs, this`bindings, this`children
      ensures Value() == BindAll(old(Value()), agent, items)
    {
      for i := 0 to |items|
        invariant BindAll(Value(), agent, items[i..]) == BindAll(old(Value()), agent, items)
      {
        assert items[i..][1..] == items[i + 1..];
        BindOne(agent, items[i]);
      }
    }

    method CommitLease(id: BlockId, agent: AgentId, binding: ChainBinding, expected: U64) returns (r: Response)
      modifies this`leases, this`blockRefs, this`bindings, this`children
      ensures Outcome(Value(), r) == Commit(old(Value()), id, agent, binding, expected)
    {
      var verdict := ValidateCommit(
        State(fences, leases, replicas, agents, bindings, children, blockRefs, lastApplied, membership),
        id, agent, binding, expected);
      if verdict.Err? {
        return Rejected(verdict.error);
      }
      if verdict.value {
        BindOne(agent, binding);
        leases := leases.(records := leases.records[
          id := leases.records[id].(committed := Some(LeaseCommit(binding, expected)))]);
      }
      r := Bound;
    }

    // -------------------------------------------------------------- replicas

    method RequireReplicas(blocks: seq<BlockId>, n: nat) returns (r: Response)
      modifies this`replicas
      ensures Outcome(Value(), r) == RequireMany(old(Value()), blocks, n)
    {
      if !(2 <= n <= 16) || |blocks| > MAX_REPLICA_BATCH {
        return Rejected(InvalidReplicas);
      }
      var next: map<BlockId, nat> := replicas;
      for i := 0 to |blocks|
        invariant Require(next, blocks[i..], n) == Require(replicas, blocks, n)
      {
        assert blocks[i..][1..] == blocks[i + 1..];
        var now := if blocks[i] in next then next[blocks[i]] else n;
        next := next[blocks[i] := if now < n then n else now];
      }
      if |next| > MAX_REPLICA_ENTRIES {
        return Rejected(ReplicaCapacity);
      }
      replicas := next;
      r := ReplicasRequired;
    }

    // ---------------------------------------------------------------- fences

    method BlocksOf(item: ChainBinding) returns (touched: set<BlockId>)
      ensures touched == BindingTouches(Value(), item)
    {
      touched := set b | b in item.blocks;
      if item.key in bindings {
        touched := touched + set b | b in bindings[item.key].blocks;
      }
    }

    method TouchedBlocks(req: Request) returns (touched: set<BlockId>)
      ensures touched == Touched(Value(), req)
    {
      touched := {};
      match req
      case BindPrefix(_, item) => touched := BlocksOf(item);
      case BindChain(_, items) =>
        for i := 0 to |items|
          invariant touched + ChainTouches(Value(), items[i..]) == ChainTouches(Value(), items)
        {
          assert items[i..][1..] == items[i + 1..];
          var more := BlocksOf(items[i]);
          touched := touched + more;
        }
      case CommitUploadLease(_, _, item, _) => touched := BlocksOf(item);
      case BeginUploadLease(_, _, blocks) => touched := set b | b in blocks;
      case RequireReplicas(blocks, _) => touched := set b | b in blocks;
      case RenewUploadLease(lease, _, _, _) =>
        if lease in leases.records { touched := set b | b in leases.records[lease].blocks; }
      case _ =>
    }

    method MoveFences(touched: set<BlockId>)
      modifies this`fences
      ensures fences == Fence(old(fences), touched, At(Value()))
    {
      var at := Position();
      var rest := touched;
      while rest != {}
        invariant rest <= touched
        invariant fences == Fence(old(fences), touched - rest, at)
        decreases rest
      {
        var b :| b in rest;
        fences := fences[b := at];
        rest := rest - {b};
      }
      assert touched - rest == touched;
    }

    // -------------------------------------------------------- whole requests

    method ApplyUnfenced(req: Request) returns (r: Response)
      modifies this
      ensures Outcome(Value(), r) == ControlState.ApplyUnfenced(old(Value()), req)
    {
      match req
      case RenewUploadLease(lease, agent, expected, ttl) => r := Renew(lease, agent, expected, ttl);
      case AdvanceLeaseClock(tick) => r := Advance(tick);
      case ExpireUploadLease(lease, generation, tick) => r := Expire(lease, generation, tick);
      case CancelUploadLease(lease, agent) => r := Cancel(lease, agent);
      case BeginUploadLease(lease, agent, blocks) => r := Reserve(lease, agent, blocks);
      case CommitUploadLease(lease, agent, binding, expected) => r := CommitLease(lease, agent, binding, expected);
      case RequireReplicas(blocks, n) => r := RequireReplicas(blocks, n);
      case RegisterAgent(agent, name) =>
        var at := Position();
        agents := agents[agent := AgentRecord(name, at)];
        r := Registered;
      case BindChain(agent, items) =>
        BindChain(agent, items);
        r := Bound;
      case BindPrefix(agent, item) =>
        BindOne(agent, item);
        r := Bound;
    }

    method ApplyOne(req: Request) returns (r: Response)
      modifies this
      ensures Outcome(Value(), r) == ControlState.ApplyOne(old(Value()), req)
    {
      hide Touched, Fence, ControlState.ApplyUnfenced;
      var touched := TouchedBlocks(req);
      if |fences| + |touched - fences.Keys| > MAX_BLOCK_FENCES {
        return Rejected(FenceCapacity);
      }
      r := ApplyUnfenced(req);
      if !r.Rejected? {
        MoveFences(touched);
      }
    }

    method ApplyEntry(e: Entry) returns (r: Response)
      modifies this
      ensures Outcome(Value(), r) == ControlState.ApplyEntry(old(Value()), e)
    {
      lastApplied := Some(e.id);
      match e.payload
      case Blank => r := Registered;
      case Normal(req) => r := ApplyOne(req);
      case MembershipChange(nodes) =>
        membership := Membership(Some(e.id), nodes);
        r := Registered;
    }

    /** Apply a batch of committed entries. */
    method Apply(entries: seq<Entry>) returns (replies: seq<Response>)
      modifies this
      ensures Value() == Run(old(Value()), entries)
      ensures replies == Replies(old(Value()), entries)
    {
      replies := [];
      for i := 0 to |entries|
        invariant Run(Value(), entries[i..]) == Run(old(Value()), entries)
        invariant replies + Replies(Value(), entries[i..]) == Replies(old(Value()), entries)
      {
        assert entries[i..][1..] == entries[i + 1..];
        var r := ApplyEntry(entries[i]);
        replies := replies + [r];
      }
    }

    // ---------------------------------------------------------------- expiry

    /** One round of the leader's expiry loop, each request at the next index. */
    method ExpiryRound(leader: nat) returns (round: Round)
      requires Inv(Value())
      modifies this
      ensures IsRound(old(Value()), round) && Increasing(Pos(old(Value())), round.log)
      ensures Value() == Run(old(Value()), round.log)
    {
      hide Inv, ControlState.ApplyEntry, Due;
      var next: nat := if lastApplied.Some? then lastApplied.value.index + 1 else 0;
      var first: seq<Entry> := [];
      if Active(leases) {
        var tick := Entry(LogId(leader, next), Normal(AdvanceLeaseClock(leases.clock)));
        EntryKeepsInv(Value(), tick);
        var _ := ApplyEntry(tick);
        first, next := [tick], next + 1;
      }
      var due := PickDue(leases);
      var marks := MarkExpired(leader, next, due);
      round := Round(due, first + marks);
      RunAppend(old(Value()), first, marks);
      assert first != [] ==> round.log[1..] == marks;
      assert first == [] ==> round.log == marks;
    }

    /** Ask for a marker on each of `due`, one entry after the other. */
    method MarkExpired(leader: nat, start: nat, due: seq<BlockId>) returns (log: seq<Entry>)
      requires Inv(Value()) && Pos(Value()) < start
      requires forall i :: 0 <= i < |due| ==> due[i] in Due(leases)
      modifies this
      ensures Marks(old(leases), due, log) && Increasing(Pos(old(Value())), log)
      ensures Value() == Run(old(Value()), log)
    {
      hide Inv, ControlState.ApplyEntry, IsExpired;
      var quoted := leases;
      log := [];
      for i := 0 to |due|
        invariant |log| == i && forall j :: 0 <= j < i ==> log[j].payload == Normal(ExpireRequest(quoted, due[j]))
        invariant Increasing(Pos(old(Value())), log) && (log != [] ==> log[i - 1].id.index == start + i - 1)
        invariant Inv(Value()) && Value() == Run(old(Value()), log) && Pos(Value()) < start + i
      {
        assert due[i] in Due(quoted);
        var e := Entry(LogId(leader, start + i), Normal(ExpireRequest(quoted, due[i])));
        EntryKeepsInv(Value(), e);
        RunAppend(old(Value()), log, [e]);
        IncreasingAppend(Pos(old(Value())), log, e);
        var _ := ApplyEntry(e);
        log := log + [e];
      }
    }
  }
}
