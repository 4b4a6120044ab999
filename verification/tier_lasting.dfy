/** With no compaction under way, when the tiers stay backed whatever comes. */
module TierLasting {
  import opened Core
  import opened MapSums
  import opened Tiered
  import opened TierSteps
  import opened TierInvariant
  import opened TierBacking
  import opened TierRuns

  ghost predicate NoCompaction(tasks: map<nat, Task>)
  {
    forall t :: t in tasks ==> Quiet(tasks[t])
  }

  /** However the calls in flight and any others but compactions go on. */
  ghost predicate StaysBacked(c: Config, s: Shared)
  {
    forall actions :: StartsNoCompaction(actions) ==> Backed(RunFrom(c, s, actions))
  }

  lemma QuietIsBacked(c: Config, s: Shared)
    requires Covered(c, s) && NoCompaction(s.tasks)
    ensures Backed(s)
  {
    hide Carries;
    forall t | t in s.tasks ensures PinnedDebt(s.tasks[t]) == {} && WarmDebt(s.tasks[t]) == {} {
      assert Quiet(s.tasks[t]);
    }
  }

  lemma TaskIsQuiet(tasks: map<nat, Task>, t: nat)
    requires NoCompaction(tasks) && t in tasks
    ensures Quiet(tasks[t])
  {
  }

  lemma QuietMove(tasks: map<nat, Task>, t: nat, task: Task)
    requires NoCompaction(tasks)
    ensures NoCompaction(tasks - {t}) && (Quiet(task) ==> NoCompaction(tasks[t := task]))
  {
    hide Quiet;
  }

  lemma GoStaysQuiet(c: Config, s: Shared, t: nat, task: Task, ch: Choice)
    requires Quiet(task) && GoStep(c, s, t, task, ch).Some?
    ensures var r := GoStep(c, s, t, task, ch).value;
            OneTask(s.tasks, r.tasks, t) && (t in r.tasks ==> Quiet(r.tasks[t]))
  {
    hide PinStep, ReadStep, VerifyStep, RepairStep, PutStep;
  }

  lemma StepStaysQuiet(c: Config, s: Shared, a: Action)
    requires NoCompaction(s.tasks) && !(a.Start? && a.task.Sealing?)
    ensures NoCompaction(Do(c, s, a).tasks)
  {
    hide NoCompaction, GoStep;
    if a.Go? && Next(c, s, a).Some? {
      var t, r := a.t, Do(c, s, a);
      TaskIsQuiet(s.tasks, t);
      GoStaysQuiet(c, s, t, s.tasks[t], a.choice);
      QuietMove(s.tasks, t, if t in r.tasks then r.tasks[t] else s.tasks[t]);
    } else if a.Start? {
      QuietMove(s.tasks, a.t, a.task);
    }
  }

  lemma NothingViolates(c: Config, s: Shared, a: Action)
    requires Covered(c, s) && NoCompaction(s.tasks)
    ensures !Violates(c, s, a)
  {
    hide Covered, Strands, DropsCarried, Damaged;
    QuietIsBacked(c, s);
    if a.Go? && a.t in s.tasks { assert Quiet(s.tasks[a.t]); }
  }

  lemma {:induction false} RunStaysCovered(c: Config, s: Shared, actions: seq<Action>)
    requires Inv(c, s) && Covered(c, s) && NoCompaction(s.tasks) && StartsNoCompaction(actions)
    ensures var r := RunFrom(c, s, actions); Inv(c, r) && Covered(c, r) && NoCompaction(r.tasks)
    decreases |actions|
  {
    hide Inv, Covered, Do, NoCompaction;
    if actions != [] {
      var n := |actions| - 1;
      RunStaysCovered(c, s, actions[..n]);
      var r := RunFrom(c, s, actions[..n]);
      NothingViolates(c, r, actions[n]);
      StepCovered(c, r, actions[n]);
      StepKeepsInv(c, r, actions[n]);
      StepStaysQuiet(c, r, actions[n]);
    }
  }

  // ----------------------------------------------- how a carried block gets in

  lemma {:induction false} Most(tasks: set<nat>) returns (most: nat)
    ensures forall t :: t in tasks ==> t <= most
    decreases tasks
  {
    if tasks == {} {
      most := 0;
    } else {
      var t :| t in tasks;
      var below := Most(tasks - {t});
      most := if t < below then below else t;
      assert forall u :: u in tasks ==> u == t || u in tasks - {t};
    }
  }

  lemma FreshTask(tasks: set<nat>) returns (t: nat)
    ensures t !in tasks
  {
    var most := Most(tasks);
    t := most + 1;
  }

  lemma VerifyRun(c: Config, s: Shared, t: nat, id: BlockId)
    requires t in s.tasks && s.tasks[t] == Verifying(id) && id in s.cold && s.cold[id].medium.Unreadable?
    ensures var r := RunFrom(c, s, Alone(t, 4));
            && r.cold == s.cold && r.tasks == s.tasks - {t} && r.warm == s.warm - {id} && r.pinned == s.pinned - {id}
  {
    hide Do, RunFrom, Unpinned, Alone;
    AloneNext(c, s, t, 0);
    VerifyDo(c, s, t);
    AloneNext(c, s, t, 1);
    VerifyDo(c, RunFrom(c, s, Alone(t, 1)), t);
    AloneNext(c, s, t, 2);
    VerifyDo(c, RunFrom(c, s, Alone(t, 2)), t);
    AloneNext(c, s, t, 3);
    VerifyDo(c, RunFrom(c, s, Alone(t, 3)), t);
  }

  /** With its record gone bad, verifying a block takes it out of both tiers. */
  lemma VerifyUnpins(c: Config, s: Shared, id: BlockId) returns (actions: seq<Action>)
    requires id in s.cold && id in s.pinned
    ensures StartsNoCompaction(actions)
    ensures var r := RunFrom(c, s, actions);
            && r.cold.Keys == s.cold.Keys && r.tasks == s.tasks
            && r.warm == s.warm - {id} && r.pinned == s.pinned - {id}
  {
    hide RunFrom, GoStep, StartsNoCompaction, Alone;
    var t := FreshTask(s.tasks.Keys);
    var decay, start := Decay(id, Unreadable), Start(t, Verifying(id));
    var s1 := Do(c, s, decay);
    var s2 := Do(c, s1, start);
    VerifyRun(c, s2, t, id);
    assert s2.tasks - {t} == s.tasks;
    Then(c, s1, start, Alone(t, 4));
    Then(c, s, decay, [start] + Alone(t, 4));
    actions := [decay] + ([start] + Alone(t, 4));
  }

  lemma NotEmpty(c: Config, s: Shared)
    requires Inv(c, s) && s.pinnedBytes > 0
    ensures s.pinned != map[]
  {
    assert Sizes(map[]) == map[];
  }

  /** A pin that carries a block the cold index has lost can still pin it: when
      there is no room, other pinned blocks may go first. */
  lemma {:induction false} PinLands(c: Config, s: Shared, t: nat) returns (actions: seq<Action>)
    requires Inv(c, s) && t in s.tasks && s.tasks[t].Fetched? && s.tasks[t].id !in s.cold
    requires |s.tasks[t].payload| <= c.pinnedBudget
    ensures StartsNoCompaction(actions) && !Backed(RunFrom(c, s, actions))
    decreases |s.pinned|
  {
    hide RunFrom, GoStep, StartsNoCompaction, Total, Sizes;
    var id, payload := s.tasks[t].id, s.tasks[t].payload;
    if !Backed(s) {
      actions := NoActions(c, s);
    } else if s.pinnedBytes + |payload| <= c.pinnedBudget {
      actions := Alone(t, 1);
      AloneNext(c, s, t, 0);
      PinDo(c, s, t);
      assert id in RunFrom(c, s, actions).pinned;
    } else {
      NotEmpty(c, s);
      var other :| other in s.pinned;
      var free := VerifyUnpins(c, s, other);
      var r := RunFrom(c, s, free);
      RunKeepsInv(c, s, free);
      assert r.pinned.Keys == s.pinned.Keys - {other} && |r.pinned.Keys| < |s.pinned.Keys|;
      var rest := PinLands(c, r, t);
      actions := free + rest;
      RunConcat(c, s, free, rest);
      BothStartNone(free, rest);
    }
  }

  /** A call that carries such a block can still put it into a tier. */
  lemma {:induction false} CarriedLands(c: Config, s: Shared, t: nat) returns (actions: seq<Action>)
    requires Inv(c, s) && t in s.tasks && !(Carries(c, s.tasks[t]) <= s.cold.Keys)
    ensures StartsNoCompaction(actions) && !Backed(RunFrom(c, s, actions))
    decreases if s.tasks[t].Warming? then |s.tasks[t].rest| else 0
  {
    hide RunFrom, StartsNoCompaction, Inv, Do, Backed;
    match s.tasks[t] {
      case Fetched(_, _) => actions := PinLands(c, s, t);
      case Warming(rest) =>
        var p := rest[0];
        assert rest == [p] + rest[1..];
        if |p| <= c.warmBudget && c.hash(p) !in s.cold {
          WarmingLands(c, s, t);
          actions := OneStep(c, s, t);
        } else {
          WarmingDo(c, s, t);
          InsertFrame(c, s, c.hash(p), p, {});
          var r := Do(c, s, Step(t));
          StepKeepsInv(c, s, Step(t));
          var later := CarriedLands(c, r, t);
          Then(c, s, Step(t), later);
          actions := [Step(t)] + later;
        }
      case Mended(_, _) => actions := MendedLands(c, s, t);
      case Captured(_, _, _) => actions := CapturedLands(c, s, t);
      case Loaded(_, _, _) =>
        LoadedLands(c, s, t);
        actions := OneStep(c, s, t);
      case _ =>
        LiftedLands(c, s, t);
        actions := OneStep(c, s, t);
    }
  }

  lemma WarmingDo(c: Config, s: Shared, t: nat)
    requires t in s.tasks && s.tasks[t].Warming? && s.tasks[t].rest != []
    ensures var rest := s.tasks[t].rest;
            Do(c, s, Step(t)) == To(Insert(c, s, c.hash(rest[0]), rest[0], {}), t, Warming(rest[1..]))
  {
    hide Insert;
  }

  lemma WarmingLands(c: Config, s: Shared, t: nat)
    requires t in s.tasks && s.tasks[t].Warming? && s.tasks[t].rest != []
    requires var p := s.tasks[t].rest[0]; |p| <= c.warmBudget && c.hash(p) !in s.cold
    ensures !Backed(Do(c, s, Step(t)))
  {
    hide Do;
    WarmingDo(c, s, t);
    assert c.hash(s.tasks[t].rest[0]) in Do(c, s, Step(t)).warm;
  }

  lemma LoadedLands(c: Config, s: Shared, t: nat)
    requires t in s.tasks && s.tasks[t].Loaded? && |s.tasks[t].payload| <= c.warmBudget && s.tasks[t].id !in s.cold
    ensures !Backed(Do(c, s, Step(t)))
  {
    hide Do;
    ReadDo(c, s, t);
    assert s.tasks[t].id in Do(c, s, Step(t)).warm;
  }

  lemma LiftedLands(c: Config, s: Shared, t: nat)
    requires t in s.tasks && s.tasks[t].Lifted? && |s.tasks[t].payload| <= c.warmBudget && s.tasks[t].id !in s.cold
    ensures !Backed(Do(c, s, Step(t)))
  {
    assert s.tasks[t].id in Do(c, s, Step(t)).warm;
  }

  lemma MendedLands(c: Config, s: Shared, t: nat) returns (actions: seq<Action>)
    requires t in s.tasks && s.tasks[t].Mended? && |s.tasks[t].payload| <= c.warmBudget && s.tasks[t].id !in s.cold
    ensures StartsNoCompaction(actions) && !Backed(RunFrom(c, s, actions))
  {
    hide RunFrom, StartsNoCompaction, Backed;
    var r := Do(c, s, Step(t));
    LiftedLands(c, r, t);
    actions := TwoSteps(c, s, t);
  }

  lemma CapturedLands(c: Config, s: Shared, t: nat) returns (actions: seq<Action>)
    requires t in s.tasks && s.tasks[t].Captured? && !(Carries(c, s.tasks[t]) <= s.cold.Keys)
    ensures StartsNoCompaction(actions) && !Backed(RunFrom(c, s, actions))
  {
    hide RunFrom, StartsNoCompaction, Backed, Do;
    ReadDo(c, s, t);
    LoadedLands(c, Do(c, s, Step(t)), t);
    actions := TwoSteps(c, s, t);
  }

  lemma TwoSteps(c: Config, s: Shared, t: nat) returns (actions: seq<Action>)
    ensures StartsNoCompaction(actions) && RunFrom(c, s, actions) == Do(c, Do(c, s, Step(t)), Step(t))
  {
    hide RunFrom, StartsNoCompaction, Do;
    var later := OneStep(c, Do(c, s, Step(t)), t);
    Then(c, s, Step(t), later);
    actions := [Step(t)] + later;
  }

  // ---------------------------------------------------------- the two together

  lemma BackedIsCovered(c: Config, s: Shared)
    requires Backed(s) && CarriedOk(c, s.tasks, s.cold.Keys)
    ensures Covered(c, s)
  {
    hide CarriedOk;
  }

  /** With no compaction under way, the tiers stay backed whatever the calls in
      flight and any later reads, pins, puts, verifications and repairs do,
      exactly if every block cached or carried now is in the cold index. */
  lemma StaysBackedIff(c: Config, s: Shared)
    requires Inv(c, s) && NoCompaction(s.tasks)
    ensures StaysBacked(c, s) <==> Backed(s) && CarriedOk(c, s.tasks, s.cold.Keys)
  {
    hide Inv, RunFrom, StartsNoCompaction, NoCompaction, Carries;
    if Backed(s) && CarriedOk(c, s.tasks, s.cold.Keys) {
      BackedIsCovered(c, s);
      forall actions | StartsNoCompaction(actions) ensures Backed(RunFrom(c, s, actions)) {
        RunStaysCovered(c, s, actions);
        QuietIsBacked(c, RunFrom(c, s, actions));
      }
    }
    var none := NoActions(c, s);
    assert StaysBacked(c, s) ==> Backed(RunFrom(c, s, none));
    if !CarriedOk(c, s.tasks, s.cold.Keys) {
      var t :| t in s.tasks && !(Carries(c, s.tasks[t]) <= s.cold.Keys);
      var lands := CarriedLands(c, s, t);
      assert !Backed(RunFrom(c, s, lands));
    }
  }

  /** Compactions, however they overlap with other calls, leave the tiers backed
      for good if no step was of the three kinds. */
  lemma CompactionsKeepBacked(c: Config, s: Shared, actions: seq<Action>)
    requires Inv(c, s) && Covered(c, s) && NeverViolates(c, s, actions) && NoCompaction(RunFrom(c, s, actions).tasks)
    ensures StaysBacked(c, RunFrom(c, s, actions))
  {
    hide Inv, RunFrom, NoCompaction, StaysBacked, NeverViolates, CarriedOk, PinnedOk, WarmOk;
    var r := RunFrom(c, s, actions);
    CoveredIff(c, s, actions);
    assert actions[..|actions|] == actions;
    RunKeepsInv(c, s, actions);
    QuietIsBacked(c, r);
    StaysBackedIff(c, r);
  }

  /** The tiers as they start: empty, over any cold store. */
  function Fresh(cold: Cold, active: nat): (s: Shared)
  {
    Shared(cold, active, false, {}, map[], map[], 0, map[], [])
  }

  lemma FreshTiers(c: Config, cold: Cold, active: nat)
    requires c.pinnedBudget == c.warmBudget / 4
    ensures Inv(c, Fresh(cold, active)) && Covered(c, Fresh(cold, active))
  {
    assert Sizes(map[]) == map[];
  }

  /** From the start, over every interleaving: every read that answered gave its
      id's bytes, the pinned counter is the exact sum within its budget, and, if
      no step was of the three kinds, the tiers are backed for good whenever no
      compaction is under way. */
  lemma RunsFromFresh(c: Config, cold: Cold, active: nat, actions: seq<Action>)
    requires c.pinnedBudget == c.warmBudget / 4
    ensures var r := RunFrom(c, Fresh(cold, active), actions);
            && LogOk(c, r.log) && r.pinnedBytes == Total(Sizes(r.pinned)) && r.pinnedBytes <= c.pinnedBudget
            && (NeverViolates(c, Fresh(cold, active), actions) && NoCompaction(r.tasks) ==> StaysBacked(c, r))
  {
    hide RunFrom, Fresh, Total, Sizes, StaysBacked, NeverViolates, NoCompaction, Covered, LogOk, TasksOk, AllHash;
    FreshTiers(c, cold, active);
    RunKeepsInv(c, Fresh(cold, active), actions);
    if NeverViolates(c, Fresh(cold, active), actions) && NoCompaction(RunFrom(c, Fresh(cold, active), actions).tasks) {
      CompactionsKeepBacked(c, Fresh(cold, active), actions);
    }
  }
}
