/** How the tiers come to hold the only copy: three runs from one good block. */
module TierRaces {
  import opened Core
  import opened MapSums
  import opened Tiered
  import opened TierSteps
  import opened TierRuns

  /** One good record in a sealed segment, nothing quarantined, nobody calling. */
  function OneBlock(id: BlockId, payload: Bytes, warm: Blocks): (s: Shared)
  {
    Shared(map[id := Slot(0, Reads(payload))], 1, false, {}, warm, map[], 0, map[], [])
  }

  ghost predicate NoneFails(actions: seq<Action>)
  {
    forall k :: 0 <= k < |actions| && actions[k].Go? ==> actions[k].choice.fault.Smooth?
  }

  lemma Both(c: Config, s: Shared, first: seq<Action>, later: seq<Action>)
    requires NoneFails(first) && NoneFails(later)
    ensures NoneFails(first + later) && RunFrom(c, s, first + later) == RunFrom(c, RunFrom(c, s, first), later)
  {
    RunConcat(c, s, first, later);
  }

  lemma AloneFails(t: nat, n: nat)
    ensures NoneFails(Alone(t, n))
  {
  }

  lemma StartFails(a: Action)
    requires a.Start?
    ensures NoneFails([a])
  {
  }

  lemma MissSteps(c: Config, s: Shared, t: nat, id: BlockId)
    requires t in s.tasks && s.tasks[t] == Asking(id, false) && id !in s.quarantined && id !in s.pinned && id !in s.warm
    requires ColdGet(c.hash, s.cold, id).Ok?
    ensures var captured := Captured(id, s.cold[id].medium, false);
            && Do(c, s, Step(t)) == To(s, t, InPinned(id, false))
            && Do(c, To(s, t, InPinned(id, false)), Step(t)) == To(s, t, InWarm(id, false))
            && Do(c, To(s, t, InWarm(id, false)), Step(t)) == To(s, t, InCold(id, false))
            && Do(c, To(s, t, InCold(id, false)), Step(t)) == To(s, t, captured)
            && Do(c, To(s, t, captured), Step(t)) == To(s, t, Loaded(id, ColdGet(c.hash, s.cold, id).value, false))
  {
    hide Do, ReadStep, ReadTurn, To, ReadMedium;
    MissStep(c, s, t, s.tasks[t], InPinned(id, false));
    MissStep(c, s, t, InPinned(id, false), InWarm(id, false));
    MissStep(c, s, t, InWarm(id, false), InCold(id, false));
    MissStep(c, s, t, InCold(id, false), Captured(id, s.cold[id].medium, false));
    MissStep(c, s, t, Captured(id, s.cold[id].medium, false), Loaded(id, ColdGet(c.hash, s.cold, id).value, false));
    SelfTo(s, t);
    MissTurns(c, s, id);
  }

  lemma SelfTo(s: Shared, t: nat)
    requires t in s.tasks
    ensures To(s, t, s.tasks[t]) == s
  {
    assert s.tasks[t := s.tasks[t]] == s.tasks;
  }

  lemma MissStep(c: Config, s: Shared, t: nat, task: Task, next: Task)
    requires Reading(task) && !task.Loaded?
    ensures ReadTurn(c, To(s, t, task), task, Plain(ANY)) == ReadTurn(c, s, task, Plain(ANY))
    ensures ReadTurn(c, s, task, Plain(ANY)) == On(next) ==> Do(c, To(s, t, task), Step(t)) == To(s, t, next)
  {
    hide Do, ReadMedium;
    ReadDo(c, To(s, t, task), t);
    assert s.tasks[t := task][t := next] == s.tasks[t := next];
  }

  lemma MissTurns(c: Config, s: Shared, id: BlockId)
    requires id !in s.quarantined && id !in s.pinned && id !in s.warm && ColdGet(c.hash, s.cold, id).Ok?
    ensures ReadTurn(c, s, Asking(id, false), Plain(ANY)) == On(InPinned(id, false))
    ensures ReadTurn(c, s, InPinned(id, false), Plain(ANY)) == On(InWarm(id, false))
    ensures ReadTurn(c, s, InWarm(id, false), Plain(ANY)) == On(InCold(id, false))
    ensures ReadTurn(c, s, InCold(id, false), Plain(ANY)) == On(Captured(id, s.cold[id].medium, false))
    ensures ReadTurn(c, s, Captured(id, s.cold[id].medium, false), Plain(ANY))
         == On(Loaded(id, ColdGet(c.hash, s.cold, id).value, false))
  {
    hide ReadMedium;
  }

  /** A read that misses both tiers, up to where it has the cold bytes. */
  lemma MissRun(c: Config, s: Shared, t: nat, id: BlockId)
    requires t in s.tasks && s.tasks[t] == Asking(id, false) && id !in s.quarantined && id !in s.pinned && id !in s.warm
    requires ColdGet(c.hash, s.cold, id).Ok?
    ensures RunFrom(c, s, Alone(t, 5)) == To(s, t, Loaded(id, ColdGet(c.hash, s.cold, id).value, false))
  {
    hide Do, RunFrom, Alone, ColdGet, ReadStep, To;
    MissSteps(c, s, t, id);
    AloneNext(c, s, t, 0);
    AloneNext(c, s, t, 1);
    AloneNext(c, s, t, 2);
    AloneNext(c, s, t, 3);
    AloneNext(c, s, t, 4);
    assert RunFrom(c, s, Alone(t, 4)) == To(s, t, Captured(id, s.cold[id].medium, false));
  }

  lemma NothingPinned(s: Shared)
    requires s.pinned == map[] && s.pinnedBytes == 0
    ensures Unpinned(s, s.pinned.Keys - s.cold.Keys) == s
  {
    var ids := s.pinned.Keys - s.cold.Keys;
    assert (map id | id in s.pinned && id in ids :: s.pinned[id]) == map[] && Sizes(map[]) == map[];
  }

  /** A compaction that drops the one block, up to where it has swept the pinned tier. */
  lemma DropRun(c: Config, s: Shared, t: nat, id: BlockId)
    requires t in s.tasks && s.tasks[t] == Sealing({}, 0, 1, {}) && s.cold.Keys == {id} && s.cold[id].segment == 0
    requires s.pinned == map[] && s.pinnedBytes == 0
    ensures RunFrom(c, s, Alone(t, 3)) == To(s.(cold := map[]), t, SweepWarm({id}))
  {
    hide Do, RunFrom, Alone, CompactStep;
    var s1, s2 := To(s.(cold := map[]), t, Sealing({}, 1, 1, {id})), To(s.(cold := map[]), t, SweepPinned({id}));
    AloneNext(c, s, t, 0);
    DropStep(c, s, t, id);
    AloneNext(c, s, t, 1);
    DoneStep(c, s1, t, id);
    AloneNext(c, s, t, 2);
    PinnedStep(c, s2, t, id);
    assert s1.tasks[t := SweepPinned({id})] == s2.tasks
           && s2.tasks[t := SweepWarm({id})] == s.tasks[t := SweepWarm({id})];
  }

  lemma DropStep(c: Config, s: Shared, t: nat, id: BlockId)
    requires t in s.tasks && s.tasks[t] == Sealing({}, 0, 1, {}) && s.cold.Keys == {id} && s.cold[id].segment == 0
    ensures Do(c, s, Step(t)) == To(s.(cold := map[]), t, Sealing({}, 1, 1, {id}))
  {
    hide Do, ColdGet;
    var none: set<BlockId> := {};
    assert none + {id} == {id};
    assert Doomed(s.cold, 0, Live({})) == {id} && Damaged(c.hash, s.cold, 0, Live({})) == {} && s.cold - {id} == map[];
    CompactGoes(c, s, t);
  }

  lemma DoneStep(c: Config, s: Shared, t: nat, id: BlockId)
    requires t in s.tasks && s.tasks[t] == Sealing({}, 1, 1, {id})
    ensures Do(c, s, Step(t)) == To(s, t, SweepPinned({id}))
  {
    hide Do, Doomed, Damaged;
    CompactGoes(c, s, t);
  }

  lemma PinnedStep(c: Config, s: Shared, t: nat, id: BlockId)
    requires t in s.tasks && s.tasks[t] == SweepPinned({id}) && s.pinned == map[] && s.pinnedBytes == 0
    ensures Do(c, s, Step(t)) == To(s, t, SweepWarm({id}))
  {
    hide Do, Unpinned;
    CompactGoes(c, s, t);
    NothingPinned(s);
  }

  /** The rest of it, with nothing in the warm tier. */
  lemma SweepRun(c: Config, s: Shared, t: nat, gone: set<BlockId>)
    requires t in s.tasks && s.tasks[t] == SweepWarm(gone) && s.warm == map[]
    ensures RunFrom(c, s, Alone(t, 2)) == End(s, t)
  {
    hide Do, RunFrom, Alone;
    AloneNext(c, s, t, 0);
    CompactGoes(c, s, t);
    AloneNext(c, s, t, 1);
    assert s.warm.Keys - s.cold.Keys == {};
    CompactGoes(c, To(s, t, Dropping({})), t);
    assert s.tasks[t := Dropping({})] - {t} == s.tasks - {t};
  }

  /** A read takes a block from the cold store; a compaction drops it, finishes
      and sweeps; then the read caches it. No call failed, none is left, and the
      cache holds the only copy. */
  lemma GetRace(c: Config, payload: Bytes) returns (actions: seq<Action>)
    requires |payload| <= c.warmBudget
    ensures var r := RunFrom(c, OneBlock(c.hash(payload), payload, map[]), actions);
            NoneFails(actions) && r.tasks == map[] && c.hash(payload) in r.warm && c.hash(payload) !in r.cold
  {
    hide Do, RunFrom, NoneFails, Alone, CanStart;
    var id := c.hash(payload);
    var s := OneBlock(id, payload, map[]);
    var get, compact := Start(1, Asking(id, false)), Start(2, Sealing({}, 0, 1, {}));
    var s1 := To(s, 1, get.task);
    Starts(c, s, 1, get.task);
    MissRun(c, s1, 1, id);
    var s2 := To(s1, 1, Loaded(id, payload, false));
    var s3 := To(s2, 2, compact.task);
    Starts(c, s2, 2, compact.task);
    DropRun(c, s3, 2, id);
    var s4 := To(s3.(cold := map[]), 2, SweepWarm({id}));
    SweepRun(c, s4, 2, {id});
    var s5 := End(s4, 2);
    AloneNext(c, s5, 1, 0);
    ReadDo(c, s5, 1);
    assert s1.tasks[1 := Loaded(id, payload, false)] == map[1 := Loaded(id, payload, false)];
    assert s5.tasks == map[1 := Loaded(id, payload, false)];
    AloneFails(1, 1); AloneFails(2, 2); AloneFails(2, 3); AloneFails(1, 5);
    StartFails(get); StartFails(compact);
    Both(c, s4, Alone(2, 2), Alone(1, 1));
    Both(c, s3, Alone(2, 3), Alone(2, 2) + Alone(1, 1));
    Both(c, s2, [compact], Alone(2, 3) + (Alone(2, 2) + Alone(1, 1)));
    Both(c, s1, Alone(1, 5), [compact] + (Alone(2, 3) + (Alone(2, 2) + Alone(1, 1))));
    actions := [get] + (Alone(1, 5) + ([compact] + (Alone(2, 3) + (Alone(2, 2) + Alone(1, 1)))));
    Both(c, s, [get], Alone(1, 5) + ([compact] + (Alone(2, 3) + (Alone(2, 2) + Alone(1, 1)))));
  }

  /** A pin that finds its block in the warm tier, to where it has pinned it. */
  lemma PinRun(c: Config, s: Shared, t: nat, id: BlockId)
    requires t in s.tasks && s.tasks[t] == Pinning(id) && id !in s.quarantined && s.pinned == map[]
    requires s.pinnedBytes == 0
    requires id in s.warm && |s.warm[id]| <= c.pinnedBudget
    ensures var r := RunFrom(c, s, Alone(t, 5));
            && r == s.(pinned := r.pinned, pinnedBytes := r.pinnedBytes, tasks := s.tasks - {t}, log := r.log)
            && id in r.pinned
  {
    hide Do, RunFrom, Alone;
    AloneNext(c, s, t, 0);
    PinGoes(c, s, t);
    AloneNext(c, s, t, 1);
    ReadDo(c, RunFrom(c, s, Alone(t, 1)), t);
    AloneNext(c, s, t, 2);
    ReadDo(c, RunFrom(c, s, Alone(t, 2)), t);
    AloneNext(c, s, t, 3);
    ReadDo(c, RunFrom(c, s, Alone(t, 3)), t);
    AloneNext(c, s, t, 4);
    PinDo(c, RunFrom(c, s, Alone(t, 4)), t);
  }

  lemma SweepOneSteps(c: Config, s: Shared, t: nat, id: BlockId)
    requires t in s.tasks && s.tasks[t] == SweepWarm({id}) && s.warm.Keys == {id} && s.cold == map[]
    ensures Do(c, s, Step(t)) == To(s, t, Dropping({id}))
    ensures Do(c, To(s, t, Dropping({id})), Go(t, Plain(id))) == To(s.(warm := map[]), t, Dropping({}))
    ensures Do(c, To(s.(warm := map[]), t, Dropping({})), Step(t)) == s.(warm := map[], tasks := s.tasks - {t})
  {
    hide GoStep;
    var s1, s2 := To(s, t, Dropping({id})), To(s.(warm := map[]), t, Dropping({}));
    CompactDo(c, s, t, ANY);
    CompactDo(c, s1, t, id);
    CompactDo(c, s2, t, ANY);
    assert s.warm.Keys - s.cold.Keys == {id} && s.warm - {id} == map[] && {id} - {id} == {};
    assert s1.tasks[t := Dropping({})] == s2.tasks && s2.tasks - {t} == s.tasks - {t};
  }

  /** Sweeping the one block out of the warm tier. */
  lemma SweepOneRun(c: Config, s: Shared, t: nat, id: BlockId)
    requires t in s.tasks && s.tasks[t] == SweepWarm({id}) && s.warm.Keys == {id} && s.cold == map[]
    ensures var sweep := [Step(t), Go(t, Plain(id)), Step(t)];
            NoneFails(sweep) && RunFrom(c, s, sweep) == s.(warm := map[], tasks := s.tasks - {t})
  {
    hide Do, CompactStep;
    var sweep := [Step(t), Go(t, Plain(id)), Step(t)];
    var s1, s2 := To(s, t, Dropping({id})), To(s.(warm := map[]), t, Dropping({}));
    assert sweep[..2][..1][..0] == [] && sweep[..2][..1] == [sweep[0]] && sweep[..2] == [sweep[0], sweep[1]];
    SweepOneSteps(c, s, t, id);
    RunOne(c, s, sweep[0]);
    assert RunFrom(c, s, sweep[..2]) == Do(c, s1, sweep[1]);
  }

  /** A compaction drops a block and sweeps the pinned tier; a pin that begins
      only now finds the block in the warm tier and pins it; the sweep goes on.
      No call failed, none was in flight when the block was dropped, and it
      stays pinned with nothing under it. */
  lemma PinRace(c: Config, payload: Bytes) returns (actions: seq<Action>)
    requires |payload| <= c.pinnedBudget
    ensures var id := c.hash(payload);
            var r := RunFrom(c, OneBlock(id, payload, map[id := payload]), actions);
            NoneFails(actions) && r.tasks == map[] && id in r.pinned && id !in r.cold && id !in r.warm
  {
    hide Do, RunFrom, NoneFails, Alone, CanStart;
    var id := c.hash(payload);
    var s := OneBlock(id, payload, map[id := payload]);
    var pin, compact := Start(1, Pinning(id)), Start(2, Sealing({}, 0, 1, {}));
    var sweep := [Step(2), Go(2, Plain(id)), Step(2)];
    var s1 := To(s, 2, compact.task);
    Starts(c, s, 2, compact.task);
    DropRun(c, s1, 2, id);
    var s2 := To(s1.(cold := map[]), 2, SweepWarm({id}));
    var s3 := To(s2, 1, pin.task);
    Starts(c, s2, 1, pin.task);
    PinRun(c, s3, 1, id);
    var s4 := RunFrom(c, s3, Alone(1, 5));
    assert s4.tasks == map[2 := SweepWarm({id})];
    SweepOneRun(c, s4, 2, id);
    assert s4.tasks - {2} == map[];
    AloneFails(1, 5); AloneFails(2, 3);
    StartFails(pin); StartFails(compact);
    Both(c, s3, Alone(1, 5), sweep);
    Both(c, s2, [pin], Alone(1, 5) + sweep);
    Both(c, s1, Alone(2, 3), [pin] + (Alone(1, 5) + sweep));
    actions := [compact] + (Alone(2, 3) + ([pin] + (Alone(1, 5) + sweep)));
    Both(c, s, [compact], Alone(2, 3) + ([pin] + (Alone(1, 5) + sweep)));
  }

  /** A compaction replaces a segment and only then meets a disk error: it sweeps
      nothing, and the cache is left with the only copy of what it dropped. */
  lemma LateErrorStrands(c: Config, payload: Bytes)
    ensures var id := c.hash(payload);
            var s := OneBlock(id, payload, map[id := payload]);
            var r := RunFrom(c, s, [Start(1, Sealing({}, 0, 1, {})), Go(1, Choice({}, Late, 0, ANY))]);
            r.tasks == map[] && id in r.warm && id !in r.cold
  {
    hide RunFrom;
    var id := c.hash(payload);
    var s := OneBlock(id, payload, map[id := payload]);
    var begin, late := Start(1, Sealing({}, 0, 1, {})), Go(1, Choice({}, Late, 0, ANY));
    var s1 := To(s, 1, begin.task);
    Starts(c, s, 1, begin.task);
    assert Doomed(s1.cold, 0, Live({})) == {id} && Damaged(c.hash, s1.cold, 0, Live({})) == {};
    RunConcat(c, s, [begin], [late]);
    RunOne(c, s1, late);
    assert [begin] + [late] == [begin, late];
  }
}
