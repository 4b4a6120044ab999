/** The life of a lease over whole runs: final states are final, deadlines only
    rise, the clock moves once per tick. */
module LeaseLifecycle {
  import opened Core
  import opened ControlState
  import opened ControlInvariant

  datatype Status = Pending | Committed | Cancelled | Expired

  /** Everything the table holds about one lease, with the clock it is judged by. */
  datatype Cell = Cell(
    lease: UploadLease, cancelledAt: Option<nat>, expiredAt: Option<nat>, deadline: Option<LeaseDeadline>, clock: U64)

  function CellOf(l: LeaseState, id: BlockId): (c: Cell)
    requires id in l.records
  {
    Cell(l.records[id], Lookup(l.cancelled, id), Lookup(l.expired, id), Lookup(l.deadlines, id), l.clock)
  }

  function CellStatus(c: Cell): (st: Status)
  {
    if c.lease.committed.Some? then Committed
    else if c.cancelledAt.Some? then Cancelled
    else if c.expiredAt.Some? || (c.deadline.Some? && c.deadline.value.deadlineTick <= c.clock) then Expired
    else Pending
  }

  function StatusOf(l: LeaseState, id: BlockId): (st: Status)
    requires id in l.records
  {
    CellStatus(CellOf(l, id))
  }

  /** The status agrees with the test every lease operation makes. */
  lemma ExpiredStatus(l: LeaseState, id: BlockId)
    requires id in l.records
    ensures StatusOf(l, id) == Expired <==> IsExpired(l, id)
  {
  }

  // ------------------------------------------------------------- statistics

  datatype StatusCounts = StatusCounts(
    total: int, pending: int, committed: int, cancelled: int, expired: int, currentTick: nat, expiryMarkers: int)

  /** The counters reported to operators; `pending` is a bare subtraction. */
  function CountStatuses(l: LeaseState): (c: StatusCounts)
  {
    var committed := |set id | id in l.records && l.records[id].committed.Some?|;
    var expired := |set id | id in l.records && IsExpired(l, id)|;
    StatusCounts(|l.records|, |l.records| - committed - expired - |l.cancelled|,
                 committed, |l.cancelled|, expired, l.clock, |l.expired|)
  }

  function WithStatus(l: LeaseState, st: Status): (ids: set<BlockId>)
  {
    set id | id in l.records && StatusOf(l, id) == st
  }

  lemma CommittedSet(l: LeaseState)
    ensures WithStatus(l, Committed) == set id | id in l.records && l.records[id].committed.Some?
  {
  }

  lemma ExpiredSet(l: LeaseState)
    ensures WithStatus(l, Expired) == set id | id in l.records && IsExpired(l, id)
  {
    forall id | id in l.records ensures StatusOf(l, id) == Expired <==> IsExpired(l, id) {
      ExpiredStatus(l, id);
    }
    hide StatusOf, IsExpired;
  }

  lemma CancelledSet(l: LeaseState, pos: int)
    requires CancelledOk(l.records, l.cancelled, pos)
    ensures WithStatus(l, Cancelled) == l.cancelled.Keys
  {
  }

  lemma StatusesPartition(l: LeaseState)
    ensures |l.records| == |WithStatus(l, Pending)| + |WithStatus(l, Committed)|
                         + |WithStatus(l, Cancelled)| + |WithStatus(l, Expired)|
  {
    hide StatusOf;
    var a, b := WithStatus(l, Pending), WithStatus(l, Committed);
    var c, d := WithStatus(l, Cancelled), WithStatus(l, Expired);
    assert l.records.Keys == a + b + c + d;
    assert |a + b| == |a| + |b|;
    assert |a + b + c| == |a + b| + |c|;
    assert |a + b + c + d| == |a + b + c| + |d|;
  }

  /** The four reported numbers count the four statuses, so every record is in
      exactly one of them and the subtraction never underflows. */
  lemma CountsAreExact(s: State)
    requires Reachable(s)
    ensures var c := CountStatuses(s.leases);
            && c.pending == |WithStatus(s.leases, Pending)| && c.committed == |WithStatus(s.leases, Committed)|
            && c.cancelled == |WithStatus(s.leases, Cancelled)| && c.expired == |WithStatus(s.leases, Expired)|
            && c.total == c.pending + c.committed + c.cancelled + c.expired
  {
    ReachableInv(s);
    assert CancelledOk(s.leases.records, s.leases.cancelled, Pos(s));
    hide Inv, Reachable, WithStatus, IsExpired, CancelledOk;
    CommittedSet(s.leases);
    ExpiredSet(s.leases);
    CancelledSet(s.leases, Pos(s));
    StatusesPartition(s.leases);
  }

  // -------------------------------------------------------------- evolution

  /** A deadline is replaced only by a later one, generation by generation. */
  predicate DeadlineRises(d: Option<LeaseDeadline>, e: Option<LeaseDeadline>)
  {
    d.Some? ==>
      && e.Some?
      && 0 <= e.value.generation - d.value.generation <= e.value.deadlineTick - d.value.deadlineTick
      && (d.value.generation == e.value.generation ==> d == e)
  }

  /** How one lease may look later on. */
  predicate Evolves(c: Cell, d: Cell)
  {
    && d.lease.(committed := None) == c.lease.(committed := None)
    && c.clock <= d.clock
    && DeadlineRises(c.deadline, d.deadline)
    && (c.cancelledAt.Some? ==> d.cancelledAt == c.cancelledAt)
    && (c.expiredAt.Some? ==> d.expiredAt == c.expiredAt)
    && (CellStatus(c) != Pending ==>
          CellStatus(d) == CellStatus(c) && d.lease == c.lease && d.deadline == c.deadline)
  }

  lemma EvolvesTransitive(c: Cell, d: Cell, e: Cell)
    requires Evolves(c, d) && Evolves(d, e)
    ensures Evolves(c, e)
  {
  }

  /** What one request does to one lease: nothing, or one of the five moves
      of a pending lease, or a tick, or an expiry marker. */
  ghost predicate Moves(c: Cell, d: Cell, at: nat)
  {
    || d == c
    || (exists k :: CellStatus(c) == Pending && d == c.(lease := c.lease.(committed := Some(k))))
    || (CellStatus(c) == Pending && d == c.(cancelledAt := Some(at)))
    || (CellStatus(c) == Expired && c.expiredAt.None? && d == c.(expiredAt := Some(at)))
    || (c.clock < U64_MAX && d == c.(clock := c.clock + 1))
    || (CellStatus(c) == Pending && d == c.(deadline := d.deadline) && Renews(c, d))
  }

  /** A renewal is one generation up and ends later than before. */
  predicate Renews(c: Cell, d: Cell)
  {
    && d.deadline.Some?
    && d.deadline.value.generation == (if c.deadline.Some? then c.deadline.value.generation else 0) + 1
    && (c.deadline.Some? ==> c.deadline.value.deadlineTick < d.deadline.value.deadlineTick)
  }

  lemma MovesEvolves(c: Cell, d: Cell, at: nat)
    requires Moves(c, d, at)
    ensures Evolves(c, d)
  {
  }

  lemma TimersMove(s: State, req: Request, id: BlockId)
    requires id in s.leases.records
    requires req.CancelUploadLease? || req.AdvanceLeaseClock? || req.ExpireUploadLease?
    ensures Moves(CellOf(s.leases, id), CellOf(ApplyUnfenced(s, req).state.leases, id), At(s))
  {
  }

  lemma RenewMoves(s: State, lease: BlockId, agent: AgentId, expected: U64, ttl: U64, id: BlockId)
    requires id in s.leases.records
    ensures Moves(CellOf(s.leases, id), CellOf(Renew(s, lease, agent, expected, ttl).state.leases, id), At(s))
  {
  }

  lemma CommitMoves(s: State, lease: BlockId, agent: AgentId, binding: ChainBinding, expected: U64, id: BlockId)
    requires id in s.leases.records
    ensures Moves(CellOf(s.leases, id), CellOf(Commit(s, lease, agent, binding, expected).state.leases, id), At(s))
  {
    hide ValidBinding, Acquire, Release, AddChild;
  }

  lemma ReserveMoves(s: State, lease: BlockId, agent: AgentId, blocks: seq<BlockId>, id: BlockId)
    requires ActivationOk(s.leases) && id in s.leases.records
    ensures id in Reserve(s, lease, agent, blocks).state.leases.records
    ensures CellOf(Reserve(s, lease, agent, blocks).state.leases, id) == CellOf(s.leases, id)
  {
    ReserveCases(s, lease, agent, blocks);
    hide Reserve;
  }

  lemma UnfencedMoves(s: State, req: Request, id: BlockId)
    requires ActivationOk(s.leases) && id in s.leases.records
    ensures id in ApplyUnfenced(s, req).state.leases.records
    ensures Moves(CellOf(s.leases, id), CellOf(ApplyUnfenced(s, req).state.leases, id), At(s))
  {
    UnfencedFrame(s, req);
    hide CellStatus, Renews, Reserve, ValidateCommit, Acquire, Release, AddChild;
    match req
    case BindChain(agent, items) => BindAllFrame(s, agent, items);
    case BeginUploadLease(lease, agent, blocks) => ReserveMoves(s, lease, agent, blocks, id);
    case CommitUploadLease(lease, agent, binding, expected) => CommitMoves(s, lease, agent, binding, expected, id);
    case RenewUploadLease(lease, agent, expected, ttl) => RenewMoves(s, lease, agent, expected, ttl, id);
    case CancelUploadLease(_, _) => TimersMove(s, req, id);
    case AdvanceLeaseClock(_) => TimersMove(s, req, id);
    case ExpireUploadLease(_, _, _) => TimersMove(s, req, id);
    case _ =>
  }

  lemma EntryMoves(s: State, e: Entry, id: BlockId)
    requires ActivationOk(s.leases) && id in s.leases.records
    ensures id in ApplyEntry(s, e).state.leases.records
    ensures Moves(CellOf(s.leases, id), CellOf(ApplyEntry(s, e).state.leases, id), e.id.index)
  {
    hide CellStatus, Renews, ApplyUnfenced, Touched;
    if e.payload.Normal? {
      UnfencedMoves(s.(lastApplied := Some(e.id)), e.payload.request, id);
    }
  }

  /** Committed, cancelled and expired are final over every run; a record keeps
      its owner, blocks and position; deadlines rise with their generation. */
  lemma {:induction false} RunEvolves(s: State, log: seq<Entry>, id: BlockId)
    requires Inv(s) && Increasing(Pos(s), log) && id in s.leases.records
    ensures id in Run(s, log).leases.records
    ensures Evolves(CellOf(s.leases, id), CellOf(Run(s, log).leases, id))
    decreases |log|
  {
    assert ActivationOk(s.leases);
    hide Inv, ApplyEntry;
    if log != [] {
      hide Evolves, Moves, CellOf;
      var t := ApplyEntry(s, log[0]).state;
      EntryKeepsInv(s, log[0]);
      EntryMoves(s, log[0], id);
      MovesEvolves(CellOf(s.leases, id), CellOf(t.leases, id), log[0].id.index);
      RunEvolves(t, log[1..], id);
      EvolvesTransitive(CellOf(s.leases, id), CellOf(t.leases, id), CellOf(Run(s, log).leases, id));
    }
  }

  // ------------------------------------------------------------------ clock

  lemma EntryClock(s: State, e: Entry)
    ensures var c, d := s.leases.clock, ApplyEntry(s, e).state.leases.clock;
            d == c || (d == c + 1 && e.payload == Normal(AdvanceLeaseClock(c)))
  {
    hide Touched;
    if e.payload.Normal? {
      UnfencedFrame(s.(lastApplied := Some(e.id)), e.payload.request);
      hide BindOne, BindAll, Commit, Reserve, RequireMany;
    }
  }

  /** How many entries of a run propose tick `tick` and move the clock. */
  ghost function EffectiveTicks(s: State, log: seq<Entry>, tick: U64): (n: nat)
    decreases |log|
  {
    if log == [] then 0
    else
      var t := ApplyEntry(s, log[0]).state;
      (if log[0].payload == Normal(AdvanceLeaseClock(tick)) && t.leases.clock != s.leases.clock then 1 else 0)
      + EffectiveTicks(t, log[1..], tick)
  }

  /** A tick proposed any number of times moves the clock exactly once if the
      run passes it, and never otherwise. */
  lemma {:induction false} TickOnce(s: State, log: seq<Entry>, tick: U64)
    ensures s.leases.clock <= Run(s, log).leases.clock
    ensures EffectiveTicks(s, log, tick) == if s.leases.clock <= tick < Run(s, log).leases.clock then 1 else 0
    decreases |log|
  {
    hide ApplyEntry;
    if log != [] {
      EntryClock(s, log[0]);
      TickOnce(ApplyEntry(s, log[0]).state, log[1..], tick);
    }
  }

  /** A renewal answers with the generation and deadline it stored, one past the
      expected generation, and asking again the same way answers the same. */
  lemma RenewAnswers(s: State, id: BlockId, agent: AgentId, expected: U64, ttl: U64)
    ensures var o := Renew(s, id, agent, expected, ttl);
            o.response.LeaseRenewed? ==>
              && id in o.state.leases.deadlines
              && o.state.leases.deadlines[id] == LeaseDeadline(o.response.generation, o.response.deadlineTick, ttl)
              && o.response.generation == expected + 1
              && Renew(o.state, id, agent, expected, ttl) == Outcome(o.state, o.response)
  {
  }
}
