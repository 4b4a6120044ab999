/** When the tiers hold a block the cold index does not: the exact kinds of step
    by which that comes about, in every interleaving. */
module TierBacking {
  import opened Core
  import opened MapSums
  import opened Tiered
  import opened TierSteps
  import opened TierInvariant

  /** The blocks a call in flight may yet put into a tier. */
  ghost function Carries(c: Config, task: Task): (ids: set<BlockId>)
  {
    match task
    case Captured(id, medium, _) =>
      var got := ReadMedium(c.hash, id, medium);
      if got.Ok? && |got.value| <= c.warmBudget then {id} else {}
    case Loaded(id, payload, _) => if |payload| <= c.warmBudget then {id} else {}
    case Fetched(id, payload) => if |payload| <= c.pinnedBudget then {id} else {}
    case Warming(rest) => set p | p in rest && |p| <= c.warmBudget :: c.hash(p)
    case Mended(id, payload) => if |payload| <= c.warmBudget then {id} else {}
    case Lifted(id, payload) => if |payload| <= c.warmBudget then {id} else {}
    case _ => {}
  }

  /** What a compaction has dropped and not yet swept out of the pinned tier. */
  function PinnedDebt(task: Task): (ids: set<BlockId>)
  {
    if task.Sealing? || task.SweepPinned? then task.gone else {}
  }

  function WarmDebt(task: Task): (ids: set<BlockId>)
  {
    if task.Sealing? || task.SweepPinned? || task.SweepWarm? then task.gone
    else if task.Dropping? then task.dead
    else {}
  }

  ghost predicate CarriedOk(c: Config, tasks: map<nat, Task>, cold: set<BlockId>)
  {
    forall t :: t in tasks ==> Carries(c, tasks[t]) <= cold
  }

  ghost predicate OwedPinned(tasks: map<nat, Task>, id: BlockId)
  {
    exists t :: t in tasks && id in PinnedDebt(tasks[t])
  }

  ghost predicate OwedWarm(tasks: map<nat, Task>, id: BlockId)
  {
    exists t :: t in tasks && id in WarmDebt(tasks[t])
  }

  ghost predicate PinnedOk(pinned: set<BlockId>, cold: set<BlockId>, tasks: map<nat, Task>)
  {
    forall id :: id in pinned ==> id in cold || OwedPinned(tasks, id)
  }

  ghost predicate WarmOk(warm: set<BlockId>, cold: set<BlockId>, tasks: map<nat, Task>)
  {
    forall id :: id in warm ==> id in cold || OwedWarm(tasks, id)
  }

  /** What is cached or about to be is in the cold index, but for blocks that a
      compaction in progress will still sweep. */
  ghost predicate Covered(c: Config, s: Shared)
  {
    && CarriedOk(c, s.tasks, s.cold.Keys)
    && PinnedOk(s.pinned.Keys, s.cold.Keys, s.tasks) && WarmOk(s.warm.Keys, s.cold.Keys, s.tasks)
  }

  ghost predicate Backed(s: Shared)
  {
    s.warm.Keys <= s.cold.Keys && s.pinned.Keys <= s.cold.Keys
  }

  /** A compaction is about to drop a block that a call in flight carries. */
  ghost predicate DropsCarried(c: Config, s: Shared, drop: set<BlockId>)
  {
    exists t :: t in s.tasks && Carries(c, s.tasks[t]) * drop != {}
  }

  /** The cached blocks only call `t` would still have swept. */
  ghost predicate Strands(s: Shared, t: nat)
  {
    || (exists id :: id in s.pinned && id !in s.cold && !OwedPinned(s.tasks - {t}, id))
    || (exists id :: id in s.warm && id !in s.cold && !OwedWarm(s.tasks - {t}, id))
  }

  /** A pin is about to take out of a tier a block the cold index has lost. */
  ghost predicate TakesDropped(c: Config, s: Shared, task: Task)
  {
    || (task.InPinned? && task.pin && task.id in s.pinned && |s.pinned[task.id]| <= c.pinnedBudget
        && task.id !in s.cold)
    || (task.InWarm? && task.pin && task.id in s.warm && |s.warm[task.id]| <= c.pinnedBudget && task.id !in s.cold)
  }

  /** The three kinds of step that can leave the cache the only copy: dropping a
      block some call carries; failing, before or after the swap of a segment,
      while a dropped block is still cached; and taking a dropped block out of a
      tier in order to pin it. */
  ghost predicate Violates(c: Config, s: Shared, a: Action)
  {
    a.Go? && a.t in s.tasks
    && match s.tasks[a.t]
       case Sealing(live, segment, sealed, _) =>
         var drop := Doomed(s.cold, segment, Live(live));
         && segment < sealed && drop != {}
         && if a.choice.fault.Early? || Damaged(c.hash, s.cold, segment, Live(live)) != {} then Strands(s, a.t)
            else if a.choice.fault.Late? then DropsCarried(c, s, drop) || Strands(s.(cold := s.cold - drop), a.t)
            else DropsCarried(c, s, drop)
       case _ => TakesDropped(c, s, s.tasks[a.t])
  }

  // -------------------------------------------------------- one call at a time

  lemma CarriedMove(c: Config, tasks: map<nat, Task>, t: nat, task: Task, cold: set<BlockId>, more: set<BlockId>)
    requires CarriedOk(c, tasks, cold) && cold <= more
    ensures CarriedOk(c, tasks - {t}, more) && (CarriedOk(c, tasks[t := task], more) <==> Carries(c, task) <= more)
  {
    hide Carries;
    forall u | u in tasks ensures Carries(c, tasks[u]) <= more {
    }
    assert tasks[t := task][t] == task;
  }

  lemma PinnedMove(pinned: set<BlockId>, fewer: set<BlockId>, cold: set<BlockId>, more: set<BlockId>,
                  tasks: map<nat, Task>, t: nat, task: Task)
    requires PinnedOk(pinned, cold, tasks) && t in tasks && cold <= more && fewer <= pinned + more
    ensures PinnedDebt(tasks[t]) <= PinnedDebt(task) + more ==> PinnedOk(fewer, more, tasks[t := task])
    ensures PinnedDebt(tasks[t]) <= more ==> PinnedOk(fewer, more, tasks - {t})
  {
    hide PinnedDebt;
    forall id | id in fewer && id !in more
      ensures PinnedDebt(tasks[t]) <= PinnedDebt(task) + more ==> OwedPinned(tasks[t := task], id)
      ensures PinnedDebt(tasks[t]) <= more ==> OwedPinned(tasks - {t}, id)
    {
      var u :| u in tasks && id in PinnedDebt(tasks[u]);
      assert tasks[t := task][t] == task
             && (u != t ==> tasks[t := task][u] == tasks[u] && (tasks - {t})[u] == tasks[u]);
    }
  }

  lemma WarmMove(warm: set<BlockId>, fewer: set<BlockId>, cold: set<BlockId>, more: set<BlockId>,
                  tasks: map<nat, Task>, t: nat, task: Task)
    requires WarmOk(warm, cold, tasks) && t in tasks && cold <= more && fewer <= warm + more
    ensures WarmDebt(tasks[t]) <= WarmDebt(task) + more ==> WarmOk(fewer, more, tasks[t := task])
    ensures WarmDebt(tasks[t]) <= more ==> WarmOk(fewer, more, tasks - {t})
  {
    hide WarmDebt;
    forall id | id in fewer && id !in more
      ensures WarmDebt(tasks[t]) <= WarmDebt(task) + more ==> OwedWarm(tasks[t := task], id)
      ensures WarmDebt(tasks[t]) <= more ==> OwedWarm(tasks - {t}, id)
    {
      var u :| u in tasks && id in WarmDebt(tasks[u]);
      assert tasks[t := task][t] == task
             && (u != t ==> tasks[t := task][u] == tasks[u] && (tasks - {t})[u] == tasks[u]);
    }
  }

  /** A step of a call that owes no sweep, drops nothing and caches only what is
      indexed keeps everything covered exactly when what it carries on is. */
  lemma QuietCovered(c: Config, s: Shared, r: Shared, t: nat)
    requires Covered(c, s) && t in s.tasks && WarmDebt(s.tasks[t]) == {} && PinnedDebt(s.tasks[t]) == {}
    requires OneTask(s.tasks, r.tasks, t)
    requires s.cold.Keys <= r.cold.Keys
    requires r.warm.Keys <= s.warm.Keys + r.cold.Keys && r.pinned.Keys <= s.pinned.Keys + r.cold.Keys
    ensures Covered(c, r) <==> (t in r.tasks ==> Carries(c, r.tasks[t]) <= r.cold.Keys)
  {
    hide CarriedOk, PinnedOk, WarmOk, Carries, WarmDebt, PinnedDebt;
    var task := if t in r.tasks then r.tasks[t] else s.tasks[t];
    CarriedMove(c, s.tasks, t, task, s.cold.Keys, r.cold.Keys);
    PinnedMove(s.pinned.Keys, r.pinned.Keys, s.cold.Keys, r.cold.Keys, s.tasks, t, task);
    WarmMove(s.warm.Keys, r.warm.Keys, s.cold.Keys, r.cold.Keys, s.tasks, t, task);
  }

  lemma CarriesOwn(c: Config, s: Shared, t: nat)
    requires Covered(c, s) && t in s.tasks
    ensures Carries(c, s.tasks[t]) <= s.cold.Keys
  {
    hide PinnedOk, WarmOk, Carries;
  }

  lemma BudgetOk(c: Config, s: Shared)
    requires Inv(c, s)
    ensures c.pinnedBudget <= c.warmBudget
  {
  }

  /** What a read carries on: only a pin that hits a tier may take on a block
      the cold index does not have. */
  lemma TurnCarries(c: Config, s: Shared, task: Task, ch: Choice)
    requires Reading(task) && Carries(c, task) <= s.cold.Keys && c.pinnedBudget <= c.warmBudget
    ensures var turn := ReadTurn(c, s, task, ch);
            && (turn.On? ==> Carries(c, turn.task) <= s.cold.Keys)
            && (turn.HasBytes? && task.pin ==>
                  (Carries(c, Fetched(task.id, turn.payload)) <= s.cold.Keys <==> !TakesDropped(c, s, task)))
            && (!(turn.HasBytes? && task.pin) ==> !TakesDropped(c, s, task))
  {
    hide ReadMedium;
  }

  lemma ReadCarries(c: Config, s: Shared, t: nat, task: Task, ch: Choice)
    requires Reading(task) && Carries(c, task) <= s.cold.Keys && c.pinnedBudget <= c.warmBudget
    ensures var r := ReadStep(c, s, t, task, ch);
            && r.warm.Keys <= s.warm.Keys + s.cold.Keys
            && ((t in r.tasks ==> Carries(c, r.tasks[t]) <= s.cold.Keys) <==> !TakesDropped(c, s, task))
  {
    hide Insert, ReadTurn, ReadStep, OneTask, TakesDropped, Carries;
    ReadCases(c, s, t, task, ch);
    if task.Loaded? {
      InsertFrame(c, s, task.id, task.payload, ch.evicted);
      CarriesLoaded(c, task);
    }
    TurnCarries(c, s, task, ch);
  }

  lemma CarriesLoaded(c: Config, task: Task)
    requires task.Loaded?
    ensures Carries(c, task) == if |task.payload| <= c.warmBudget then {task.id} else {}
  {
  }

  lemma ReadCovered(c: Config, s: Shared, a: Action)
    requires Inv(c, s) && Covered(c, s) && a.Go? && a.t in s.tasks && Reading(s.tasks[a.t])
    ensures Covered(c, ReadStep(c, s, a.t, s.tasks[a.t], a.choice)) <==> !Violates(c, s, a)
  {
    hide Covered, Inv, ReadStep, Strands, DropsCarried, TakesDropped;
    CarriesOwn(c, s, a.t);
    BudgetOk(c, s);
    ReadCarries(c, s, a.t, s.tasks[a.t], a.choice);
    QuietCovered(c, s, ReadStep(c, s, a.t, s.tasks[a.t], a.choice), a.t);
  }

  lemma PutCovered(c: Config, s: Shared, t: nat, ch: Choice)
    requires Covered(c, s) && t in s.tasks && (s.tasks[t].Storing? || s.tasks[t].Warming?)
    requires PutStep(c, s, t, s.tasks[t], ch).Some?
    ensures Covered(c, PutStep(c, s, t, s.tasks[t], ch).value)
  {
    hide Covered, AppendFree, ColdPutAll;
    var task := s.tasks[t];
    var r := PutStep(c, s, t, task, ch).value;
    CarriesOwn(c, s, t);
    if task.Storing? {
      ColdPutAllAdds(c.hash, s.cold, s.active, task.payloads, Rolls(task.rolls));
    } else if task.rest != [] {
      assert task.rest[0] in task.rest && forall p :: p in task.rest[1..] ==> p in task.rest;
    }
    QuietCovered(c, s, r, t);
  }

  lemma RepairCovered(c: Config, s: Shared, t: nat, ch: Choice)
    requires Covered(c, s) && t in s.tasks && (s.tasks[t].Mending? || s.tasks[t].Mended? || s.tasks[t].Lifted?)
    requires RepairStep(c, s, t, s.tasks[t], ch).Some?
    ensures Covered(c, RepairStep(c, s, t, s.tasks[t], ch).value)
  {
    hide Covered, RepairStep;
    CarriesOwn(c, s, t);
    RepairCarries(c, s, t, s.tasks[t], ch);
    QuietCovered(c, s, RepairStep(c, s, t, s.tasks[t], ch).value, t);
  }

  lemma RepairCarries(c: Config, s: Shared, t: nat, task: Task, ch: Choice)
    requires (task.Mending? || task.Mended? || task.Lifted?) && Carries(c, task) <= s.cold.Keys
    requires RepairStep(c, s, t, task, ch).Some?
    ensures var r := RepairStep(c, s, t, task, ch).value;
            && s.cold.Keys <= r.cold.Keys && r.pinned == s.pinned && r.warm.Keys <= s.warm.Keys + r.cold.Keys
            && (t in r.tasks ==> Carries(c, r.tasks[t]) <= r.cold.Keys)
  {
    hide RepairStep, OneTask, Insert;
    if task.Lifted? { InsertFrame(c, s, task.id, task.payload, ch.evicted); }
  }

  lemma VerifyCovered(c: Config, s: Shared, t: nat)
    requires Covered(c, s) && t in s.tasks
    requires s.tasks[t].Verifying? || s.tasks[t].Judged? || s.tasks[t].Invalidating? || s.tasks[t].Unpinning?
    ensures Covered(c, VerifyStep(c, s, t, s.tasks[t]))
  {
    hide Covered, ColdGet, Unpinned;
    QuietCovered(c, s, VerifyStep(c, s, t, s.tasks[t]), t);
  }

  lemma PinCovered(c: Config, s: Shared, t: nat)
    requires Covered(c, s) && t in s.tasks && s.tasks[t].Fetched?
    ensures Covered(c, PinStep(c, s, t, s.tasks[t].id, s.tasks[t].payload))
  {
    hide Covered, PinStep;
    CarriesOwn(c, s, t);
    QuietCovered(c, s, PinStep(c, s, t, s.tasks[t].id, s.tasks[t].payload), t);
  }

  // ---------------------------------------------------------------- compaction

  lemma SealingCarriesNothing(c: Config, task: Task)
    requires task.Sealing?
    ensures Carries(c, task) == {}
  {
  }

  lemma DropOwed(pinned: set<BlockId>, warm: set<BlockId>, cold: set<BlockId>, tasks: map<nat, Task>, t: nat,
                 task: Task, drop: set<BlockId>)
    requires PinnedOk(pinned, cold, tasks) && WarmOk(warm, cold, tasks) && t in tasks && tasks[t].Sealing?
    requires task.Sealing?
    requires task.gone == tasks[t].gone + drop
    ensures PinnedOk(pinned, cold - drop, tasks[t := task]) && WarmOk(warm, cold - drop, tasks[t := task])
  {
    var after := tasks[t := task];
    assert after[t] == task;
    forall id | id in pinned && id !in cold - drop ensures OwedPinned(after, id) {
      if id in drop { assert id in PinnedDebt(after[t]); }
      else {
        var u :| u in tasks && id in PinnedDebt(tasks[u]);
        assert id in PinnedDebt(after[u]);
      }
    }
    forall id | id in warm && id !in cold - drop ensures OwedWarm(after, id) {
      if id in drop { assert id in WarmDebt(after[t]); }
      else {
        var u :| u in tasks && id in WarmDebt(tasks[u]);
        assert id in WarmDebt(after[u]);
      }
    }
  }

  /** Dropping the dead blocks of one segment: exact in what is carried. */
  lemma DropCovered(c: Config, s: Shared, t: nat, drop: set<BlockId>)
    requires Covered(c, s) && t in s.tasks && s.tasks[t].Sealing? && drop <= s.cold.Keys
    ensures var task := s.tasks[t].(segment := s.tasks[t].segment + 1, gone := s.tasks[t].gone + drop);
            Covered(c, To(s.(cold := s.cold - drop), t, task)) <==> !DropsCarried(c, s, drop)
  {
    hide Carries;
    var task := s.tasks[t].(segment := s.tasks[t].segment + 1, gone := s.tasks[t].gone + drop);
    var r := To(s.(cold := s.cold - drop), t, task);
    DropOwed(s.pinned.Keys, s.warm.Keys, s.cold.Keys, s.tasks, t, task, drop);
    SealingCarriesNothing(c, s.tasks[t]);
    SealingCarriesNothing(c, task);
    hide PinnedOk, WarmOk;
    if !DropsCarried(c, s, drop) {
      forall u | u in r.tasks ensures Carries(c, r.tasks[u]) <= r.cold.Keys {
        if u != t {
          assert r.tasks[u] == s.tasks[u] && Carries(c, s.tasks[u]) * drop == {}
                 && Carries(c, s.tasks[u]) <= s.cold.Keys;
          forall id | id in Carries(c, s.tasks[u]) ensures id in r.cold.Keys {
            assert id !in Carries(c, s.tasks[u]) * drop;
          }
        }
      }
    } else {
      var u :| u in s.tasks && Carries(c, s.tasks[u]) * drop != {};
      assert u != t && r.tasks[u] == s.tasks[u];
      var id :| id in Carries(c, s.tasks[u]) * drop;
      assert id in Carries(c, r.tasks[u]) && id !in r.cold.Keys;
    }
  }

  /** A compaction that gives up: exact in what it alone would have swept. */
  lemma FailCovered(c: Config, s: Shared, t: nat)
    requires Covered(c, s) && t in s.tasks
    ensures Covered(c, End(s, t)) <==> !Strands(s, t)
  {
    hide Carries, OwedPinned, OwedWarm;
    CarriedMove(c, s.tasks, t, s.tasks[t], s.cold.Keys, s.cold.Keys);
  }

  /** A rewrite that fails after the dead blocks are gone: exact in what is carried
      and in what is cached. */
  lemma LateCovered(c: Config, s: Shared, t: nat, drop: set<BlockId>)
    requires Covered(c, s) && t in s.tasks && s.tasks[t].Sealing? && drop <= s.cold.Keys
    ensures Covered(c, End(s.(cold := s.cold - drop), t)) <==>
              !(DropsCarried(c, s, drop) || Strands(s.(cold := s.cold - drop), t))
  {
    hide Covered, Strands, DropsCarried;
    var task := s.tasks[t].(segment := s.tasks[t].segment + 1, gone := s.tasks[t].gone + drop);
    var mid, r := To(s.(cold := s.cold - drop), t, task), End(s.(cold := s.cold - drop), t);
    assert mid.tasks - {t} == s.tasks - {t};
    DropCovered(c, s, t, drop);
    if DropsCarried(c, s, drop) {
      CarriedDropped(c, s, t, drop);
    } else {
      FailCovered(c, mid, t);
      SameStrands(mid, s.(cold := s.cold - drop), t);
    }
  }

  lemma SameStrands(a: Shared, b: Shared, t: nat)
    requires a == b.(tasks := a.tasks) && a.tasks - {t} == b.tasks - {t}
    ensures Strands(a, t) <==> Strands(b, t)
  {
    hide OwedPinned, OwedWarm;
  }

  lemma CarriedDropped(c: Config, s: Shared, t: nat, drop: set<BlockId>)
    requires t in s.tasks && s.tasks[t].Sealing? && DropsCarried(c, s, drop)
    ensures !Covered(c, End(s.(cold := s.cold - drop), t))
  {
    hide Carries, PinnedOk, WarmOk;
    SealingCarriesNothing(c, s.tasks[t]);
    var u :| u in s.tasks && Carries(c, s.tasks[u]) * drop != {};
    var id :| id in Carries(c, s.tasks[u]) * drop;
    var r := End(s.(cold := s.cold - drop), t);
    assert u in r.tasks && r.tasks[u] == s.tasks[u] && id !in r.cold.Keys;
  }

  lemma SealCovered(c: Config, s: Shared, a: Action)
    requires Covered(c, s) && a.Go? && a.t in s.tasks && s.tasks[a.t].Sealing?
    ensures var r := CompactStep(c, s, a.t, s.tasks[a.t], a.choice);
            r.Some? && (Covered(c, r.value) <==> !Violates(c, s, a))
  {
    hide Covered, Strands, DropsCarried, Damaged;
    var t, task := a.t, s.tasks[a.t];
    var drop := Doomed(s.cold, task.segment, Live(task.live));
    FailCovered(c, s, t);
    DropCovered(c, s, t, drop);
    LateCovered(c, s, t, drop);
    NothingDropped(c, s, t);
    if task.segment >= task.sealed {
      SealDone(c, s, t);
    } else {
      assert s.cold - {} == s.cold;
    }
  }

  lemma NothingDropped(c: Config, s: Shared, t: nat)
    ensures !DropsCarried(c, s, {})
  {
  }

  lemma SealDone(c: Config, s: Shared, t: nat)
    requires Covered(c, s) && t in s.tasks && s.tasks[t].Sealing?
    ensures s.tasks[t].gone == {} ==> Covered(c, End(s, t))
    ensures Covered(c, To(s, t, SweepPinned(s.tasks[t].gone)))
  {
    hide CarriedOk, PinnedOk, WarmOk;
    var task := SweepPinned(s.tasks[t].gone);
    CarriedMove(c, s.tasks, t, task, s.cold.Keys, s.cold.Keys);
    PinnedMove(s.pinned.Keys, s.pinned.Keys, s.cold.Keys, s.cold.Keys, s.tasks, t, task);
    WarmMove(s.warm.Keys, s.warm.Keys, s.cold.Keys, s.cold.Keys, s.tasks, t, task);
  }

  lemma SweepPinnedCovered(c: Config, s: Shared, t: nat, ch: Choice)
    requires Covered(c, s) && t in s.tasks && s.tasks[t].SweepPinned? && CompactStep(c, s, t, s.tasks[t], ch).Some?
    ensures Covered(c, CompactStep(c, s, t, s.tasks[t], ch).value)
  {
    hide CarriedOk, Unpinned;
    var r := CompactStep(c, s, t, s.tasks[t], ch).value;
    var cold, task := s.cold.Keys, r.tasks[t];
    CarriedMove(c, s.tasks, t, task, cold, cold);
    WarmMove(s.warm.Keys, s.warm.Keys, cold, cold, s.tasks, t, task);
  }

  lemma SweepWarmCovered(c: Config, s: Shared, t: nat, ch: Choice)
    requires Covered(c, s) && t in s.tasks && s.tasks[t].SweepWarm? && CompactStep(c, s, t, s.tasks[t], ch).Some?
    ensures Covered(c, CompactStep(c, s, t, s.tasks[t], ch).value)
  {
    hide CarriedOk, Unpinned;
    var r := CompactStep(c, s, t, s.tasks[t], ch).value;
    var cold, task := s.cold.Keys, r.tasks[t];
    CarriedMove(c, s.tasks, t, task, cold, cold);
    PinnedMove(s.pinned.Keys, s.pinned.Keys, cold, cold, s.tasks, t, task);
    forall id | id in s.warm && id !in s.cold ensures OwedWarm(r.tasks, id) { assert id in WarmDebt(r.tasks[t]); }
  }

  /** A block leaves the warm tier and the list of those to drop together. */
  lemma DropOneWarm(warm: set<BlockId>, cold: set<BlockId>, tasks: map<nat, Task>, t: nat, task: Task, pick: BlockId)
    requires WarmOk(warm, cold, tasks) && t in tasks && tasks[t].Dropping? && task == Dropping(tasks[t].dead - {pick})
    ensures WarmOk(warm - {pick}, cold, tasks[t := task])
  {
    forall id | id in warm - {pick} && id !in cold ensures OwedWarm(tasks[t := task], id) {
      var u :| u in tasks && id in WarmDebt(tasks[u]);
      assert id in WarmDebt(tasks[t := task][u]);
    }
  }

  lemma DroppingCovered(c: Config, s: Shared, t: nat, ch: Choice)
    requires Covered(c, s) && t in s.tasks && s.tasks[t].Dropping? && CompactStep(c, s, t, s.tasks[t], ch).Some?
    ensures Covered(c, CompactStep(c, s, t, s.tasks[t], ch).value)
  {
    hide CarriedOk, PinnedOk, WarmOk;
    var r := CompactStep(c, s, t, s.tasks[t], ch).value;
    var cold, task := s.cold.Keys, if t in r.tasks then r.tasks[t] else s.tasks[t];
    CarriedMove(c, s.tasks, t, task, cold, cold);
    PinnedMove(s.pinned.Keys, s.pinned.Keys, cold, cold, s.tasks, t, task);
    if s.tasks[t].dead == {} {
      WarmMove(s.warm.Keys, s.warm.Keys, cold, cold, s.tasks, t, task);
    } else {
      DropOneWarm(s.warm.Keys, cold, s.tasks, t, task, ch.pick);
      assert r.warm.Keys == s.warm.Keys - {ch.pick};
    }
  }

  /** Each sweep leaves no debt behind that it does not pay. */
  lemma SweepCovered(c: Config, s: Shared, t: nat, ch: Choice)
    requires Covered(c, s) && t in s.tasks && (s.tasks[t].SweepPinned? || s.tasks[t].SweepWarm? || s.tasks[t].Dropping?)
    requires CompactStep(c, s, t, s.tasks[t], ch).Some?
    ensures Covered(c, CompactStep(c, s, t, s.tasks[t], ch).value)
  {
    hide CompactStep, Covered;
    match s.tasks[t] {
      case SweepPinned(gone) => SweepPinnedCovered(c, s, t, ch);
      case SweepWarm(gone) => SweepWarmCovered(c, s, t, ch);
      case Dropping(dead) => DroppingCovered(c, s, t, ch);
    }
  }

  // ----------------------------------------------------- every step, every run

  lemma StartCovered(c: Config, s: Shared, t: nat, task: Task)
    requires Covered(c, s) && t !in s.tasks && CanStart(s, task)
    ensures Covered(c, To(s, t, task))
  {
    hide AppendFree, PinnedDebt, WarmDebt;
    var r := To(s, t, task);
    CarriedMove(c, s.tasks, t, task, s.cold.Keys, s.cold.Keys);
    forall id | OwedPinned(s.tasks, id) ensures OwedPinned(r.tasks, id) {
      var u :| u in s.tasks && id in PinnedDebt(s.tasks[u]);
      assert r.tasks[u] == s.tasks[u];
    }
    forall id | OwedWarm(s.tasks, id) ensures OwedWarm(r.tasks, id) {
      var u :| u in s.tasks && id in WarmDebt(s.tasks[u]);
      assert r.tasks[u] == s.tasks[u];
    }
  }

  lemma ShrinkCovered(c: Config, s: Shared, r: Shared)
    requires Covered(c, s) && r.tasks == s.tasks && r.cold.Keys == s.cold.Keys
    requires r.warm.Keys <= s.warm.Keys && r.pinned.Keys <= s.pinned.Keys
    ensures Covered(c, r)
  {
    hide OwedPinned, OwedWarm, Carries;
  }

  lemma GoCovered(c: Config, s: Shared, a: Action)
    requires Inv(c, s) && Covered(c, s) && a.Go? && a.t in s.tasks
    ensures Covered(c, Do(c, s, a)) <==> !Violates(c, s, a)
  {
    hide Inv, Covered, Strands, DropsCarried, ReadStep, PinStep, VerifyStep, PutStep, RepairStep, CompactStep;
    hide Doomed, Damaged;
    var t, task := a.t, s.tasks[a.t];
    match task {
      case Pinning(_) => QuietCovered(c, s, Do(c, s, a), t);
      case Fetched(_, _) => PinCovered(c, s, t);
      case Asking(_, _) => ReadCovered(c, s, a);
      case InPinned(_, _) => ReadCovered(c, s, a);
      case InWarm(_, _) => ReadCovered(c, s, a);
      case InCold(_, _) => ReadCovered(c, s, a);
      case Captured(_, _, _) => ReadCovered(c, s, a);
      case Loaded(_, _, _) => ReadCovered(c, s, a);
      case Storing(_, _) => if Next(c, s, a).Some? { PutCovered(c, s, t, a.choice); }
      case Warming(_) => if Next(c, s, a).Some? { PutCovered(c, s, t, a.choice); }
      case Mending(_, _, _) => if Next(c, s, a).Some? { RepairCovered(c, s, t, a.choice); }
      case Mended(_, _) => if Next(c, s, a).Some? { RepairCovered(c, s, t, a.choice); }
      case Lifted(_, _) => if Next(c, s, a).Some? { RepairCovered(c, s, t, a.choice); }
      case Verifying(_) => VerifyCovered(c, s, t);
      case Judged(_, _) => VerifyCovered(c, s, t);
      case Invalidating(_) => VerifyCovered(c, s, t);
      case Unpinning(_) => VerifyCovered(c, s, t);
      case Sealing(_, _, _, _) => SealCovered(c, s, a);
      case _ => if Next(c, s, a).Some? { SweepCovered(c, s, t, a.choice); }
    }
  }

  /** Every step keeps everything covered, but for exactly the three kinds. */
  lemma StepCovered(c: Config, s: Shared, a: Action)
    requires Inv(c, s) && Covered(c, s)
    ensures Covered(c, Do(c, s, a)) <==> !Violates(c, s, a)
  {
    hide Inv, Covered, Strands, DropsCarried, GoStep, ReadStep, CompactStep;
    if a.Go? && a.t in s.tasks {
      GoCovered(c, s, a);
    } else if a.Start? && Next(c, s, a).Some? {
      StartCovered(c, s, a.t, a.task);
    } else if Next(c, s, a).Some? {
      ShrinkCovered(c, s, Do(c, s, a));
    }
  }

  ghost predicate AlwaysCovered(c: Config, s: Shared, actions: seq<Action>)
  {
    forall k :: 0 <= k <= |actions| ==> Covered(c, RunFrom(c, s, actions[..k]))
  }

  ghost predicate NeverViolates(c: Config, s: Shared, actions: seq<Action>)
  {
    forall k :: 0 <= k < |actions| ==> !Violates(c, RunFrom(c, s, actions[..k]), actions[k])
  }

  lemma {:induction false} CleanRun(c: Config, s: Shared, actions: seq<Action>, n: nat)
    requires Inv(c, s) && Covered(c, s) && n <= |actions| && NeverViolates(c, s, actions)
    ensures forall k :: 0 <= k <= n ==> Covered(c, RunFrom(c, s, actions[..k]))
    decreases n
  {
    hide Inv, Covered, Violates, Do;
    assert actions[..0] == [];
    if n > 0 {
      CleanRun(c, s, actions, n - 1);
      RunKeepsInv(c, s, actions[..n - 1]);
      assert actions[..n][..n - 1] == actions[..n - 1];
      StepCovered(c, RunFrom(c, s, actions[..n - 1]), actions[n - 1]);
    }
  }

  /** Along every run, everything stays covered exactly as long as no step is
      of the three kinds. */
  lemma CoveredIff(c: Config, s: Shared, actions: seq<Action>)
    requires Inv(c, s) && Covered(c, s)
    ensures AlwaysCovered(c, s, actions) <==> NeverViolates(c, s, actions)
  {
    hide Inv, Covered, Violates, Do;
    if NeverViolates(c, s, actions) {
      CleanRun(c, s, actions, |actions|);
    }
    if AlwaysCovered(c, s, actions) {
      forall k | 0 <= k < |actions| ensures !Violates(c, RunFrom(c, s, actions[..k]), actions[k]) {
        var n := k + 1;
        assert actions[..n][..k] == actions[..k] && Covered(c, RunFrom(c, s, actions[..n]));
        RunKeepsInv(c, s, actions[..k]);
        StepCovered(c, RunFrom(c, s, actions[..k]), actions[k]);
      }
    }
  }
}
