/** A lease commit is a once-only compare-and-swap on its key's revision. */
module CommitOnce {
  import opened Core
  import opened ControlState
  import opened ControlInvariant
  import opened LeaseLifecycle

  predicate IsCommitted(l: LeaseState, id: BlockId)
  {
    id in l.records && l.records[id].committed.Some?
  }

  predicate Accepts(s: State, req: Request, id: BlockId)
  {
    && req.CommitUploadLease? && req.lease == id
    && ValidateCommit(s, id, req.agent, req.binding, req.expectedRevision) == Ok(true)
  }

  /** Entry `e` applies the binding of lease `id`. */
  predicate Consumes(s: State, e: Entry, id: BlockId)
  {
    var s1 := s.(lastApplied := Some(e.id));
    && e.payload.Normal?
    && FencesFit(s1, Touched(s1, e.payload.request))
    && Accepts(s1, e.payload.request, id)
  }

  /** A commit that goes through finds a pending lease and the expected revision. */
  lemma CommitReady(s: State, id: BlockId, agent: AgentId, binding: ChainBinding, expected: U64)
    requires ValidateCommit(s, id, agent, binding, expected) == Ok(true)
    ensures id in s.leases.records && s.leases.records[id].committed.None?
    ensures Revision(s.leases, binding.key) == expected < U64_MAX
  {
  }

  lemma CommitConsumes(s: State, lease: BlockId, agent: AgentId, binding: ChainBinding, expected: U64, id: BlockId)
    ensures var o := Commit(s, lease, agent, binding, expected);
            var now := id == lease && ValidateCommit(s, lease, agent, binding, expected) == Ok(true);
            && (IsCommitted(o.state.leases, id) <==> IsCommitted(s.leases, id) || now)
            && (now ==>
                  && !IsCommitted(s.leases, id) && o.response == Bound
                  && o.state.leases.records[id].committed == Some(LeaseCommit(binding, expected))
                  && Revision(s.leases, binding.key) == expected)
  {
    if ValidateCommit(s, lease, agent, binding, expected) == Ok(true) {
      CommitReady(s, lease, agent, binding, expected);
    }
    hide ValidateCommit, BindOne, Revision;
  }

  lemma UnfencedCommits(s: State, req: Request, id: BlockId)
    requires ActivationOk(s.leases)
    ensures IsCommitted(ApplyUnfenced(s, req).state.leases, id) <==> IsCommitted(s.leases, id) || Accepts(s, req, id)
    ensures Accepts(s, req, id) ==>
              && !IsCommitted(s.leases, id) && ApplyUnfenced(s, req).response == Bound
              && ApplyUnfenced(s, req).state.leases.records[id].committed
                 == Some(LeaseCommit(req.binding, req.expectedRevision))
              && Revision(s.leases, req.binding.key) == req.expectedRevision
  {
    hide Reserve, Commit, ValidateCommit, BindAll, BindOne, RequireMany, Cancel, Renew, Advance, Expire, Revision;
    UnfencedFrame(s, req);
    if req.BeginUploadLease? {
      ReserveCases(s, req.lease, req.agent, req.blocks);
    } else if req.CommitUploadLease? {
      CommitConsumes(s, req.lease, req.agent, req.binding, req.expectedRevision, id);
    }
  }

  lemma EntryCommits(s: State, e: Entry, id: BlockId)
    requires ActivationOk(s.leases)
    ensures IsCommitted(ApplyEntry(s, e).state.leases, id) <==> IsCommitted(s.leases, id) || Consumes(s, e, id)
    ensures Consumes(s, e, id) ==>
              var req := e.payload.request;
              && !IsCommitted(s.leases, id)
              && ApplyEntry(s, e).state.leases.records[id].committed
                 == Some(LeaseCommit(req.binding, req.expectedRevision))
              && Revision(s.leases, req.binding.key) == req.expectedRevision
  {
    hide ApplyUnfenced, Touched, ValidateCommit, Revision;
    if e.payload.Normal? {
      var s1 := s.(lastApplied := Some(e.id));
      UnfencedCommits(s1, e.payload.request, id);
      RejectedChangesNothing(s1, e.payload.request);
    }
  }

  /** How many entries of a run apply the binding of lease `id`. */
  ghost function Applications(s: State, log: seq<Entry>, id: BlockId): (n: nat)
    decreases |log|
  {
    if log == [] then 0
    else (if Consumes(s, log[0], id) then 1 else 0) + Applications(ApplyEntry(s, log[0]).state, log[1..], id)
  }

  /** A lease that ends a run committed had its binding applied exactly once in
      it; any other lease not at all, however often commits are retried. */
  lemma {:induction false} CommitAppliedOnce(s: State, log: seq<Entry>, id: BlockId)
    requires Inv(s) && Increasing(Pos(s), log)
    ensures IsCommitted(s.leases, id) ==> IsCommitted(Run(s, log).leases, id)
    ensures Applications(s, log, id)
         == if IsCommitted(Run(s, log).leases, id) && !IsCommitted(s.leases, id) then 1 else 0
    decreases |log|
  {
    assert ActivationOk(s.leases);
    hide Inv, ApplyEntry, Consumes, IsCommitted;
    if log != [] {
      EntryKeepsInv(s, log[0]);
      EntryCommits(s, log[0], id);
      CommitAppliedOnce(ApplyEntry(s, log[0]).state, log[1..], id);
    }
  }

  lemma CommittedForever(s: State, log: seq<Entry>, id: BlockId)
    requires Inv(s) && Increasing(Pos(s), log) && IsCommitted(s.leases, id)
    ensures IsCommitted(Run(s, log).leases, id) && Run(s, log).leases.records[id] == s.leases.records[id]
  {
    RunEvolves(s, log, id);
    hide Inv, Run;
    assert CellStatus(CellOf(s.leases, id)) == Committed;
  }

  ghost predicate OnlyFencesMove(s: State, o: Outcome)
  {
    o.state == s.(fences := o.state.fences) && o.response in {Bound, Rejected(FenceCapacity)}
  }

  lemma RetryAcknowledged(s: State, id: BlockId)
    requires LeasesOk(s.leases, s.agents.Keys, s.bindings.Keys, Pos(s)) && IsCommitted(s.leases, id)
    ensures var lease := s.leases.records[id];
            OnlyFencesMove(s, ApplyOne(s, CommitUploadLease(
              id, lease.agent, lease.committed.value.binding, lease.committed.value.expectedRevision)))
  {
    hide LeasesOk, ValidateCommit, BindOne, MarkCommitted, Touched, FencesFit, Fence;
    RetryIsNoOp(s, id);
  }

  lemma RetryIsNoOp(s: State, id: BlockId)
    requires LeasesOk(s.leases, s.agents.Keys, s.bindings.Keys, Pos(s)) && IsCommitted(s.leases, id)
    ensures var lease := s.leases.records[id];
            ValidateCommit(s, id, lease.agent, lease.committed.value.binding, lease.committed.value.expectedRevision) ==
            Ok(false)
  {
    hide ValidBinding, SlotsDistinct, CapacityOk, DeadlinesOk, ExpiredOk;
    assert RecordOk(s.leases.records[id], s.leases.revisions, s.agents.Keys, Pos(s));
  }

  /** Any later exact retry, even after newer binds, is acknowledged without
      touching bindings, counters, edges, revisions or leases: only fences may
      move, and only full fences can refuse it. */
  lemma RetryOnlyMovesFences(s: State, log: seq<Entry>, id: BlockId)
    requires Inv(s) && Increasing(Pos(s), log) && IsCommitted(s.leases, id)
    ensures var lease := s.leases.records[id];
            OnlyFencesMove(Run(s, log), ApplyOne(Run(s, log), CommitUploadLease(
              id, lease.agent, lease.committed.value.binding, lease.committed.value.expectedRevision)))
  {
    CommittedForever(s, log, id);
    RunKeepsInv(s, log);
    hide LeasesOk, Run, ApplyOne, OnlyFencesMove;
    RetryAcknowledged(Run(s, log), id);
  }

  // --------------------------------------------------------------- ordering

  lemma {:induction false} BindAllRevision(s: State, agent: AgentId, items: seq<ChainBinding>, key: CacheKey)
    ensures Revision(s.leases, key) <= Revision(BindAll(s, agent, items).leases, key)
    decreases |items|
  {
    if items != [] { BindAllRevision(BindOne(s, agent, items[0]), agent, items[1..], key); }
  }

  lemma UnfencedRevision(s: State, req: Request, key: CacheKey)
    requires s.leases.initialized
    ensures ApplyUnfenced(s, req).state.leases.initialized
    ensures Revision(s.leases, key) <= Revision(ApplyUnfenced(s, req).state.leases, key)
  {
    hide Acquire, Release, AddChild, ValidateCommit, IsExpired, Reserved, Cancel, Renew, Advance, Expire, RequireMany,
         BindAll;
    UnfencedFrame(s, req);
    if req.BindChain? {
      BindAllRevision(s, req.agent, req.bindings, key);
    }
  }

  /** After activation a key's revision never falls. */
  lemma EntryRevision(s: State, e: Entry, key: CacheKey)
    requires s.leases.initialized
    ensures ApplyEntry(s, e).state.leases.initialized
    ensures Revision(s.leases, key) <= Revision(ApplyEntry(s, e).state.leases, key)
  {
    hide ApplyUnfenced, Touched;
    if e.payload.Normal? {
      UnfencedRevision(s.(lastApplied := Some(e.id)), e.payload.request, key);
    }
  }

  lemma {:induction false} LaterCommitsExpectMore(s: State, log: seq<Entry>, id: BlockId, key: CacheKey, floor: U64)
    requires Inv(s) && Increasing(Pos(s), log) && s.leases.initialized
    requires floor <= Revision(s.leases, key)
    requires !IsCommitted(s.leases, id) && IsCommitted(Run(s, log).leases, id)
    requires Run(s, log).leases.records[id].committed.value.binding.key == key
    ensures floor <= Run(s, log).leases.records[id].committed.value.expectedRevision
    decreases |log|
  {
    assert ActivationOk(s.leases);
    hide Inv, ApplyEntry, Consumes, Revision, DeadlineRises;
    var t := ApplyEntry(s, log[0]).state;
    EntryKeepsInv(s, log[0]);
    EntryCommits(s, log[0], id);
    EntryRevision(s, log[0], key);
    if IsCommitted(t.leases, id) {
      CommittedForever(t, log[1..], id);
    } else {
      LaterCommitsExpectMore(t, log[1..], id, key, floor);
    }
  }

  /** Two leases committed to one key were committed at different expected
      revisions, in increasing order of commit. */
  lemma CommitsAreOrdered(s: State, log: seq<Entry>, first: BlockId, later: BlockId)
    requires Inv(s) && Increasing(Pos(s), log)
    requires IsCommitted(s.leases, first) && !IsCommitted(s.leases, later) && IsCommitted(Run(s, log).leases, later)
    requires s.leases.records[first].committed.value.binding.key
          == Run(s, log).leases.records[later].committed.value.binding.key
    ensures s.leases.records[first].committed.value.expectedRevision
          < Run(s, log).leases.records[later].committed.value.expectedRevision
  {
    var c := s.leases.records[first].committed.value;
    assert RecordOk(s.leases.records[first], s.leases.revisions, s.agents.Keys, Pos(s));
    assert s.leases.initialized;
    hide Inv, Run;
    LaterCommitsExpectMore(s, log, later, c.binding.key, c.expectedRevision + 1);
  }

  /** In any reachable state, whatever the order they were committed in. */
  lemma CommitSlotsDiffer(s: State, i: BlockId, j: BlockId)
    requires Reachable(s) && i != j && IsCommitted(s.leases, i) && IsCommitted(s.leases, j)
    requires s.leases.records[i].committed.value.binding.key == s.leases.records[j].committed.value.binding.key
    ensures s.leases.records[i].committed.value.expectedRevision
         != s.leases.records[j].committed.value.expectedRevision
  {
    ReachableInv(s);
    assert !SameSlot(s.leases.records[i], s.leases.records[j]);
  }
}
