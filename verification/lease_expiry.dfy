/** The expiry driver: with no further client requests every timed lease that
    is neither committed nor cancelled ends up with an expiry marker. */
module LeaseExpiry {
  import opened Core
  import opened ControlState
  import opened ControlInvariant

  const DUE_PER_ROUND: nat := 16

  /** A timed lease that is neither committed nor cancelled. */
  predicate Open(l: LeaseState, id: BlockId)
  {
    id in l.deadlines && id in l.records && l.records[id].committed.None? && id !in l.cancelled
  }

  /** Some open lease still has time left. */
  predicate Active(l: LeaseState)
  {
    exists id :: id in l.deadlines && Open(l, id) && !IsExpired(l, id)
  }

  /** Leases that are over and carry no marker yet. */
  function Due(l: LeaseState): (ids: set<BlockId>)
  {
    set id | id in l.deadlines && IsExpired(l, id) && id !in l.expired
  }

  predicate Settled(l: LeaseState)
  {
    forall id :: id in l.deadlines ==> Open(l, id) ==> id in l.expired
  }

  // ------------------------------------------------------------------ rounds

  /** One round of the driver: the ids it picked and the entries it got applied. */
  datatype Round = Round(due: seq<BlockId>, log: seq<Entry>)

  function ExpireRequest(l: LeaseState, id: BlockId): (req: Request)
    requires id in l.deadlines
  {
    ExpireUploadLease(id, l.deadlines[id].generation, l.deadlines[id].deadlineTick)
  }

  /** `due` is any choice of up to sixteen distinct due leases. */
  ghost predicate Picks(l: LeaseState, due: seq<BlockId>)
  {
    && Distinct(due) && (forall i :: 0 <= i < |due| ==> due[i] in Due(l))
    && |due| == if |Due(l)| < DUE_PER_ROUND then |Due(l)| else DUE_PER_ROUND
  }

  /** `log` asks for a marker on each of `due`, quoting the deadlines of `l`. */
  ghost predicate Marks(l: LeaseState, due: seq<BlockId>, log: seq<Entry>)
  {
    && |log| == |due|
    && forall i :: 0 <= i < |due| ==> due[i] in Due(l) && log[i].payload == Normal(ExpireRequest(l, due[i]))
  }

  ghost predicate IsRound(s: State, r: Round)
  {
    if !Active(s.leases) then Picks(s.leases, r.due) && Marks(s.leases, r.due, r.log)
    else
      && r.log != [] && r.log[0].payload == Normal(AdvanceLeaseClock(s.leases.clock))
      && var t := ApplyEntry(s, r.log[0]).state;
         Picks(t.leases, r.due) && Marks(t.leases, r.due, r.log[1..])
  }

  ghost predicate IsRounds(s: State, rounds: seq<Round>)
    decreases |rounds|
  {
    rounds == [] ||
    (Increasing(Pos(s), rounds[0].log) && IsRound(s, rounds[0]) && IsRounds(Run(s, rounds[0].log), rounds[1..]))
  }

  ghost function RunRounds(s: State, rounds: seq<Round>): (r: State)
    decreases |rounds|
  {
    if rounds == [] then s else RunRounds(Run(s, rounds[0].log), rounds[1..])
  }

  /** No entry of `log` is refused. */
  ghost predicate Accepted(s: State, log: seq<Entry>)
    decreases |log|
  {
    log == [] || (!ApplyEntry(s, log[0]).response.Rejected? && Accepted(ApplyEntry(s, log[0]).state, log[1..]))
  }

  ghost predicate AllAccepted(s: State, rounds: seq<Round>)
    decreases |rounds|
  {
    rounds == [] || (Accepted(s, rounds[0].log) && AllAccepted(Run(s, rounds[0].log), rounds[1..]))
  }

  // --------------------------------------------------------- single requests

  /** A request that touches no block is applied without any fencing. */
  lemma UnfencedEntry(s: State, e: Entry)
    requires |s.fences| <= MAX_BLOCK_FENCES
    requires e.payload.Normal? && (e.payload.request.AdvanceLeaseClock? || e.payload.request.ExpireUploadLease?)
    ensures ApplyEntry(s, e) == ApplyUnfenced(s.(lastApplied := Some(e.id)), e.payload.request)
  {
    hide ApplyUnfenced;
    var s1 := s.(lastApplied := Some(e.id));
    assert Touched(s1, e.payload.request) == {};
    NothingToFence(s1);
    UnfencedFrame(s1, e.payload.request);
    hide Touched, FencesFit, Fence;
  }

  lemma NothingToFence(s: State)
    requires |s.fences| <= MAX_BLOCK_FENCES
    ensures FencesFit(s, {}) && Fence(s.fences, {}, At(s)) == s.fences
  {
    assert {} - s.fences.Keys == {};
    assert s.fences.Keys + {} == s.fences.Keys;
  }

  lemma ExpireEntry(s: State, e: Entry, id: BlockId)
    requires |s.fences| <= MAX_BLOCK_FENCES
    requires id in Due(s.leases) && e.payload == Normal(ExpireRequest(s.leases, id))
    ensures ApplyEntry(s, e) == Outcome(
              s.(lastApplied := Some(e.id), leases := s.leases.(expired := s.leases.expired[id := e.id.index])),
              LeaseExpired)
  {
    hide ApplyEntry;
    UnfencedEntry(s, e);
  }

  lemma AdvanceEntry(s: State, e: Entry)
    requires |s.fences| <= MAX_BLOCK_FENCES
    requires Active(s.leases) && e.payload == Normal(AdvanceLeaseClock(s.leases.clock))
    ensures s.leases.clock < U64_MAX
    ensures ApplyEntry(s, e) == Outcome(
              s.(lastApplied := Some(e.id), leases := s.leases.(clock := s.leases.clock + 1)), LeaseClockAdvanced)
  {
    hide ApplyEntry;
    UnfencedEntry(s, e);
  }

  // ------------------------------------------------------- marking and ticking

  ghost function Ids(due: seq<BlockId>): (r: set<BlockId>)
  {
    set id | id in due
  }

  lemma {:induction false} DistinctSize(due: seq<BlockId>)
    requires Distinct(due)
    ensures |Ids(due)| == |due|
    decreases |due|
  {
    if due != [] {
      DistinctSize(due[1..]);
      assert Ids(due) == {due[0]} + Ids(due[1..]);
      assert due[0] !in due[1..];
    }
  }

  lemma MarksTail(l: LeaseState, due: seq<BlockId>, log: seq<Entry>, at: nat)
    requires due != [] && Distinct(due) && Marks(l, due, log)
    ensures Marks(l.(expired := l.expired[due[0] := at]), due[1..], log[1..])
  {
    var m := l.(expired := l.expired[due[0] := at]);
    forall i | 0 <= i < |due| - 1
      ensures due[1..][i] in Due(m) && log[1..][i].payload == Normal(ExpireRequest(m, due[1..][i]))
    {
      assert due[i + 1] in Due(l) && due[i + 1] != due[0];
    }
  }

  /** The first marker of a batch, and what is left for the rest. */
  lemma FencesBounded(s: State)
    requires Inv(s)
    ensures |s.fences| <= MAX_BLOCK_FENCES
  {
  }

  lemma MarkOne(s: State, due: seq<BlockId>, log: seq<Entry>)
    requires Inv(s) && Increasing(Pos(s), log) && Distinct(due) && Marks(s.leases, due, log) && log != []
    ensures var o := ApplyEntry(s, log[0]);
            && !o.response.Rejected? && Inv(o.state) && Increasing(Pos(o.state), log[1..])
            && Marks(o.state.leases, due[1..], log[1..])
            && o.state.leases == s.leases.(expired := o.state.leases.expired)
            && o.state.leases.expired.Keys == s.leases.expired.Keys + {due[0]}
  {
    hide Inv, ApplyEntry, Due, ExpireRequest;
    FencesBounded(s);
    MarksTail(s.leases, due, log, log[0].id.index);
    ExpireEntry(s, log[0], due[0]);
    EntryKeepsInv(s, log[0]);
  }

  /** Marking touches nothing but the markers, marks exactly `due`, and no
      marker is refused. */
  lemma {:induction false} MarkingRun(s: State, due: seq<BlockId>, log: seq<Entry>)
    requires Inv(s) && Increasing(Pos(s), log) && Distinct(due) && Marks(s.leases, due, log)
    ensures var t := Run(s, log).leases;
            t == s.leases.(expired := t.expired) && t.expired.Keys == s.leases.expired.Keys + Ids(due)
    ensures Accepted(s, log)
    decreases |log|
  {
    hide Inv, ApplyEntry, Due, ExpireRequest;
    if log == [] {
      assert Ids(due) == {};
    } else {
      MarkOne(s, due, log);
      assert Ids(due) == {due[0]} + Ids(due[1..]);
      hide Marks, Ids, Distinct, Increasing;
      MarkingRun(ApplyEntry(s, log[0]).state, due[1..], log[1..]);
    }
  }

  /** Every open lease is over at most `h` ticks from now. */
  predicate Horizon(l: LeaseState, h: nat)
  {
    forall id :: id in l.deadlines ==> Open(l, id) ==> l.deadlines[id].deadlineTick <= l.clock + h
  }

  lemma NotActiveMeansOver(l: LeaseState)
    ensures Horizon(l, 0) ==> !Active(l)
    ensures (&& !Active(l)
             && (forall id :: id in l.expired && id in l.deadlines ==> l.deadlines[id].deadlineTick <= l.clock))
            ==> Horizon(l, 0)
  {
  }

  /** A round brings the horizon one tick closer; once nothing is running, it
      marks sixteen more leases. */
  lemma RoundProgress(s: State, r: Round, h: nat)
    requires Inv(s) && Increasing(Pos(s), r.log) && IsRound(s, r) && Horizon(s.leases, h)
    ensures Inv(Run(s, r.log)) && Accepted(s, r.log)
    ensures Horizon(Run(s, r.log).leases, if h == 0 then 0 else h - 1)
    ensures h == 0 ==> Due(Run(s, r.log).leases) == Due(s.leases) - Ids(r.due) && |Ids(r.due)| == |r.due|
    ensures h == 0 ==> Picks(s.leases, r.due)
  {
    RunKeepsInv(s, r.log);
    NotActiveMeansOver(s.leases);
    if Active(s.leases) {
      TickRound(s, r, h);
    } else {
      assert ExpiredOk(s.leases, Pos(s));
      hide Inv;
      MarkingRun(s, r.due, r.log);
      DistinctSize(r.due);
      QuietRound(s.leases, Run(s, r.log).leases, r.due);
    }
  }

  lemma TickShrinksHorizon(l: LeaseState, h: nat)
    requires Horizon(l, h) && l.clock < U64_MAX && h > 0
    ensures Horizon(l.(clock := l.clock + 1), h - 1)
  {
  }

  lemma TickRound(s: State, r: Round, h: nat)
    requires Inv(s) && Increasing(Pos(s), r.log) && IsRound(s, r) && Horizon(s.leases, h) && Active(s.leases)
    ensures h > 0 && Horizon(Run(s, r.log).leases, h - 1) && Accepted(s, r.log)
  {
    assert |s.fences| <= MAX_BLOCK_FENCES;
    hide Inv, ApplyEntry;
    NotActiveMeansOver(s.leases);
    AdvanceEntry(s, r.log[0]);
    EntryKeepsInv(s, r.log[0]);
    TickShrinksHorizon(s.leases, h);
    hide Due, Active;
    MarkingRun(ApplyEntry(s, r.log[0]).state, r.due, r.log[1..]);
  }

  /** The state after marking, seen from the leases alone. */
  lemma QuietRound(l: LeaseState, m: LeaseState, due: seq<BlockId>)
    requires m == l.(expired := m.expired) && m.expired.Keys == l.expired.Keys + Ids(due)
    requires forall i :: 0 <= i < |due| ==> due[i] in Due(l)
    requires !Active(l)
    requires forall id :: id in l.expired && id in l.deadlines ==> l.deadlines[id].deadlineTick <= l.clock
    ensures Horizon(m, 0) && Due(m) == Due(l) - Ids(due)
  {
    NotActiveMeansOver(l);
    assert forall id :: id in l.deadlines ==> (Open(m, id) <==> Open(l, id));
  }

  // ------------------------------------------------------------- termination

  lemma SettledWhenNothingDue(l: LeaseState)
    requires Horizon(l, 0) && Due(l) == {}
    ensures Settled(l)
  {
    forall id | id in l.deadlines && Open(l, id) ensures id in l.expired {
      assert id !in Due(l);
    }
  }

  lemma {:induction false} Drain(s: State, rounds: seq<Round>, m: nat)
    requires Inv(s) && IsRounds(s, rounds) && Horizon(s.leases, 0)
    requires |Due(s.leases)| <= DUE_PER_ROUND * m && m <= |rounds|
    ensures Settled(RunRounds(s, rounds).leases) && AllAccepted(s, rounds)
    decreases |rounds|
  {
    hide Inv, Due, Horizon, IsRound, Run, Settled;
    if rounds == [] {
      SettledWhenNothingDue(s.leases);
    } else {
      RoundProgress(s, rounds[0], 0);
      DueShrinks(Due(s.leases), Ids(rounds[0].due));
      Drain(Run(s, rounds[0].log), rounds[1..], if m == 0 then 0 else m - 1);
    }
  }

  lemma DueShrinks(all: set<BlockId>, some: set<BlockId>)
    requires |some| <= |all|
    ensures |all - some| >= |all| - |some|
    ensures some <= all ==> |all - some| == |all| - |some|
  {
    assert |all| == |all - some| + |all * some|;
    assert all * some <= some;
    SubsetSize(all * some, some);
    if some <= all { assert all * some == some; }
  }

  lemma {:induction false} Countdown(s: State, rounds: seq<Round>, h: nat)
    requires Inv(s) && IsRounds(s, rounds) && Horizon(s.leases, h)
    requires |rounds| >= h + MAX_LEASES / DUE_PER_ROUND
    ensures Settled(RunRounds(s, rounds).leases) && AllAccepted(s, rounds)
    decreases h
  {
    if h == 0 {
      assert Due(s.leases) <= s.leases.records.Keys;
      SubsetSize(Due(s.leases), s.leases.records.Keys);
      Drain(s, rounds, MAX_LEASES / DUE_PER_ROUND);
    } else {
      hide Inv, Horizon, IsRound, Run, Settled;
      RoundProgress(s, rounds[0], h);
      Countdown(Run(s, rounds[0].log), rounds[1..], h - 1);
    }
  }

  /** From any reachable state, 86,400 clock rounds and 256 marking rounds are
      enough, whichever due leases each round picks, and no request of any
      round is refused. */
  lemma ExpiryTerminates(s: State, rounds: seq<Round>)
    requires Reachable(s) && IsRounds(s, rounds) && |rounds| >= 86_400 + 256
    ensures Settled(RunRounds(s, rounds).leases) && AllAccepted(s, rounds)
  {
    ReachableInv(s);
    assert DeadlinesOk(s.leases.records.Keys, s.leases.deadlines, s.leases.clock);
    assert Horizon(s.leases, MAX_TTL_TICKS) by {
      forall id | id in s.leases.deadlines
        ensures s.leases.deadlines[id].deadlineTick <= s.leases.clock + MAX_TTL_TICKS
      {
        assert DeadlineOk(s.leases.clock, s.leases.deadlines[id]);
      }
    }
    Countdown(s, rounds, MAX_TTL_TICKS);
  }
}
