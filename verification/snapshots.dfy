/** Building a snapshot, the checks a node makes before installing one, and
    runs that pass through snapshots. */
module Snapshots {
  import opened Core
  import opened ControlState
  import opened ControlInvariant

  datatype SnapshotMeta = SnapshotMeta(lastLogId: Option<LogId>, lastMembership: Membership)

  datatype Snapshot = Snapshot(meta: SnapshotMeta, state: State)

  function Build(s: State): (snap: Snapshot)
  {
    Snapshot(SnapshotMeta(s.lastApplied, s.membership), s)
  }

  /** The lease table's own checks. */
  ghost predicate LeasesValidate(l: LeaseState)
  {
    && |l.records| <= MAX_LEASES
    && (forall id :: id in l.deadlines ==>
          && id in l.records && l.deadlines[id].generation != 0
          && 1 <= l.deadlines[id].ttlTicks <= MAX_TTL_TICKS
          && l.deadlines[id].ttlTicks <= l.deadlines[id].deadlineTick
          && l.deadlines[id].deadlineTick - l.deadlines[id].ttlTicks <= l.clock)
    && (forall id :: id in l.expired ==>
          && id in l.records && l.records[id].committed.None?
          && id !in l.cancelled
          && id in l.deadlines && l.deadlines[id].deadlineTick <= l.clock)
    && (forall id :: id in l.cancelled ==> id in l.records && l.records[id].committed.None?)
    && (l.initialized || (l.records == map[] && l.revisions == map[]))
    && Reserved(l.records) <= MAX_RESERVED_BLOCKS
    && (forall id :: id in l.records ==>
          && l.records[id].blocks != [] && |l.records[id].blocks| <= MAX_LEASE_BLOCKS
          && (l.records[id].committed.Some? ==>
                var c := l.records[id].committed.value;
                ValidBinding(c.binding) && c.binding.blocks == l.records[id].blocks && c.binding.key in l.revisions))
  }

  /** Every check made on a decoded snapshot, in the order it is made. */
  ghost predicate Accepts(snap: Snapshot)
  {
    var s, l := snap.state, snap.state.leases;
    && s.lastApplied == snap.meta.lastLogId && s.membership == snap.meta.lastMembership
    && |s.replicas| <= 16_384 && (forall b :: b in s.replicas ==> 2 <= s.replicas[b] <= 16)
    && LeasesValidate(l)
    && |s.fences| <= MAX_BLOCK_FENCES && (forall b :: b in s.fences ==> s.fences[b] <= At(s))
    && (forall id :: id in l.cancelled ==> l.records[id].createdAt <= l.cancelled[id] <= At(s))
    && (forall id :: id in l.expired ==> l.records[id].createdAt <= l.expired[id] <= At(s))
    && (forall key :: key in l.revisions ==> key in s.bindings)
    && (forall id :: id in l.records ==>
          && l.records[id].agent in s.agents
          && (l.records[id].committed.Some? ==>
                var c := l.records[id].committed.value;
                c.binding.key in l.revisions && l.revisions[c.binding.key] > c.expectedRevision))
  }

  ghost function Install(snap: Snapshot): (r: Option<State>)
  {
    if Accepts(snap) then Some(snap.state) else None
  }

  lemma LeasesPassValidate(l: LeaseState, agents: set<AgentId>, bound: set<CacheKey>, pos: int)
    requires LeasesOk(l, agents, bound, pos)
    ensures LeasesValidate(l)
  {
    hide SlotsDistinct, ValidBinding;
    forall id | id in l.records
      ensures RecordOk(l.records[id], l.revisions, agents, pos)
    {}
  }

  lemma InvAccepted(s: State)
    requires Inv(s)
    ensures Install(Build(s)) == Some(s)
  {
    hide RefsExact, EdgesOk, SlotsDistinct, ValidBinding, CapacityOk, DeadlinesOk, LeasesValidate;
    LeasesPassValidate(s.leases, s.agents.Keys, s.bindings.Keys, Pos(s));
    forall id | id in s.leases.records
      ensures RecordOk(s.leases.records[id], s.leases.revisions, s.agents.Keys, Pos(s))
    {}
  }

  /** What a node does over its life: apply an entry, or have its state
      replaced by a snapshot built from it. */
  datatype Event = Log(entry: Entry) | SnapshotAndRestore

  ghost function Entries(events: seq<Event>): (log: seq<Entry>)
  {
    if events == [] then []
    else (if events[0].Log? then [events[0].entry] else []) + Entries(events[1..])
  }

  /** `None` as soon as a restore is refused. */
  ghost function Replay(s: State, events: seq<Event>): (r: Option<State>)
    decreases |events|
  {
    if events == [] then Some(s)
    else match events[0]
      case Log(e) => Replay(ApplyEntry(s, e).state, events[1..])
      case SnapshotAndRestore =>
        match Install(Build(s))
        case None => None
        case Some(t) => Replay(t, events[1..])
  }

  /** Snapshots taken and restored anywhere in a run are never refused and
      leave no trace: the run ends where the bare log ends. */
  lemma {:induction false} ReplayIsRun(s: State, events: seq<Event>)
    requires Inv(s) && Increasing(Pos(s), Entries(events))
    ensures Replay(s, events) == Some(Run(s, Entries(events)))
    decreases |events|
  {
    hide Inv, ApplyEntry, Install;
    if events != [] {
      match events[0]
      case Log(e) =>
        assert Entries(events) == [e] + Entries(events[1..]);
        assert ([e] + Entries(events[1..]))[1..] == Entries(events[1..]);
        EntryKeepsInv(s, e);
        ReplayIsRun(ApplyEntry(s, e).state, events[1..]);
      case SnapshotAndRestore =>
        assert Entries(events) == Entries(events[1..]);
        InvAccepted(s);
        ReplayIsRun(s, events[1..]);
    }
  }

  /** From the empty state, with a snapshot after any prefix of any log. */
  lemma NodesAcceptCorrectSnapshots(events: seq<Event>)
    requires Increasing(-1, Entries(events))
    ensures Replay(EMPTY, events).Some?
    ensures var s := Replay(EMPTY, events).value; Inv(s) && Accepts(Build(s))
  {
    hide Inv, Accepts, Run;
    EmptyInv();
    ReplayIsRun(EMPTY, events);
    RunKeepsInv(EMPTY, Entries(events));
    InvAccepted(Run(EMPTY, Entries(events)));
    assert Build(Run(EMPTY, Entries(events))).state == Run(EMPTY, Entries(events));
  }
}
