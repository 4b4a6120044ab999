/** What every interleaving of the tiers' steps keeps: bytes that hash to their
    ids, an exact pinned counter, and true answers. */
module TierInvariant {
  import opened Core
  import opened MapSums
  import opened Tiered
  import opened TierSteps

  ghost predicate TiersOk(c: Config, warm: Blocks, pinned: Blocks, pinnedBytes: nat)
  {
    && AllHash(c.hash, warm) && AllHash(c.hash, pinned) && (forall id :: id in warm ==> |warm[id]| <= c.warmBudget)
    && pinnedBytes == Total(Sizes(pinned)) && pinnedBytes <= c.pinnedBudget
  }

  /** Bytes in flight are their id's. */
  ghost predicate TaskOk(c: Config, task: Task)
  {
    task.Loaded? || task.Fetched? || task.Mended? || task.Lifted? ==> c.hash(task.payload) == task.id
  }

  ghost predicate TasksOk(c: Config, tasks: map<nat, Task>)
  {
    forall t :: t in tasks ==> TaskOk(c, tasks[t])
  }

  ghost predicate LogOk(c: Config, log: seq<Told>)
  {
    forall i :: 0 <= i < |log| && log[i].answer.Ok? ==> c.hash(log[i].answer.value) == log[i].id
  }

  ghost predicate Inv(c: Config, s: Shared)
  {
    && c.pinnedBudget == c.warmBudget / 4
    && TiersOk(c, s.warm, s.pinned, s.pinnedBytes) && TasksOk(c, s.tasks) && LogOk(c, s.log)
  }

  lemma {:induction false} SizesSplit(blocks: Blocks, ids: set<BlockId>)
    ensures Total(Sizes(blocks)) ==
            Total(Sizes(blocks - ids)) + Total(Sizes(map id | id in blocks && id in ids :: blocks[id]))
    decreases |blocks|
  {
    var out := map id | id in blocks && id in ids :: blocks[id];
    if blocks == map[] {
      assert blocks - ids == map[] && out == map[];
    } else {
      var k :| k in blocks;
      SizesSplit(blocks - {k}, ids);
      SizesRemove(blocks, k);
      assert (map id | id in blocks - {k} && id in ids :: (blocks - {k})[id]) == out - {k};
      assert blocks - {k} - ids == blocks - ids - {k};
      if k in ids {
        SizesRemove(out, k);
        assert blocks - ids - {k} == blocks - ids;
      } else {
        SizesRemove(blocks - ids, k);
        assert out - {k} == out;
      }
    }
  }

  lemma UnpinnedKeepsTiers(c: Config, s: Shared, ids: set<BlockId>)
    requires TiersOk(c, s.warm, s.pinned, s.pinnedBytes)
    ensures var r := Unpinned(s, ids); TiersOk(c, r.warm, r.pinned, r.pinnedBytes)
  {
    hide Total, Sizes;
    SizesSplit(s.pinned, ids);
  }

  lemma PinKeepsTiers(c: Config, s: Shared, t: nat, id: BlockId, payload: Bytes)
    requires TiersOk(c, s.warm, s.pinned, s.pinnedBytes) && c.hash(payload) == id
    ensures var r := PinStep(c, s, t, id, payload); TiersOk(c, r.warm, r.pinned, r.pinnedBytes)
  {
    hide Total, Sizes;
    if id !in s.pinned { SizesInsert(s.pinned, id, payload); }
  }

  lemma TasksMove(c: Config, tasks: map<nat, Task>, t: nat, task: Task)
    requires TasksOk(c, tasks) && TaskOk(c, task)
    ensures TasksOk(c, tasks[t := task]) && TasksOk(c, tasks - {t})
  {
    hide TaskOk;
  }

  lemma TasksOne(c: Config, before: map<nat, Task>, after: map<nat, Task>, t: nat)
    requires TasksOk(c, before) && OneTask(before, after, t) && (t in after ==> TaskOk(c, after[t]))
    ensures TasksOk(c, after)
  {
    hide TaskOk;
  }

  lemma Answered(c: Config, s: Shared, id: BlockId, answer: Result<Bytes, TierError>)
    requires LogOk(c, s.log) && (answer.Ok? ==> c.hash(answer.value) == id)
    ensures LogOk(c, Tell(s, id, answer).log)
  {
  }

  lemma InsertKeepsTiers(c: Config, s: Shared, id: BlockId, payload: Bytes, evicted: set<BlockId>)
    requires TiersOk(c, s.warm, s.pinned, s.pinnedBytes) && c.hash(payload) == id
    ensures var r := Insert(c, s, id, payload, evicted); TiersOk(c, r.warm, r.pinned, r.pinnedBytes)
  {
    hide Total, Sizes;
  }

  lemma ShrinkKeepsTiers(c: Config, s: Shared, ids: set<BlockId>)
    requires TiersOk(c, s.warm, s.pinned, s.pinnedBytes)
    ensures TiersOk(c, s.warm - ids, s.pinned, s.pinnedBytes)
  {
    hide Total, Sizes;
  }

  lemma CachedHash(c: Config, s: Shared, id: BlockId)
    requires TiersOk(c, s.warm, s.pinned, s.pinnedBytes)
    ensures id in s.pinned ==> c.hash(s.pinned[id]) == id
    ensures id in s.warm ==> c.hash(s.warm[id]) == id
  {
    hide Total, Sizes;
  }

  lemma HitKeepsInv(c: Config, s: Shared, t: nat, id: BlockId, payload: Bytes, pin: bool)
    requires Inv(c, s) && c.hash(payload) == id
    ensures Inv(c, Hit(s, t, id, payload, pin))
  {
    hide TiersOk, TasksOk, LogOk;
    Answered(c, s, id, Ok(payload));
    TasksMove(c, s.tasks, t, Fetched(id, payload));
  }

  lemma TurnOk(c: Config, s: Shared, task: Task, ch: Choice)
    requires TiersOk(c, s.warm, s.pinned, s.pinnedBytes) && Reading(task) && TaskOk(c, task)
    ensures var turn := ReadTurn(c, s, task, ch);
            (turn.On? ==> TaskOk(c, turn.task)) && (turn.HasBytes? ==> c.hash(turn.payload) == task.id)
  {
    hide TiersOk, ReadMedium;
    CachedHash(c, s, task.id);
  }

  lemma ReadKeepsInv(c: Config, s: Shared, t: nat, task: Task, ch: Choice)
    requires Inv(c, s) && TaskOk(c, task) && Reading(task)
    ensures Inv(c, ReadStep(c, s, t, task, ch))
  {
    hide TiersOk, TasksOk, LogOk, TaskOk, Hit, Insert, ReadTurn, ReadStep;
    ReadCases(c, s, t, task, ch);
    var s1 := if task.Loaded? then Insert(c, s, task.id, task.payload, ch.evicted) else s;
    if task.Loaded? { LoadedInsert(c, s, task, ch.evicted); }
    TurnOk(c, s, task, ch);
    match ReadTurn(c, s, task, ch) {
      case Answers(answer) =>
        Answered(c, s1, task.id, answer);
        TasksMove(c, s.tasks, t, task);
      case On(next) => TasksMove(c, s.tasks, t, next);
      case HasBytes(payload) => HitKeepsInv(c, s1, t, task.id, payload, task.pin);
    }
  }

  lemma LoadedInsert(c: Config, s: Shared, task: Task, evicted: set<BlockId>)
    requires Inv(c, s) && TaskOk(c, task) && task.Loaded?
    ensures var r := Insert(c, s, task.id, task.payload, evicted); Inv(c, r) && r == s.(warm := r.warm)
  {
    hide TiersOk, TasksOk, LogOk, Insert;
    InsertKeepsTiers(c, s, task.id, task.payload, evicted);
    InsertFrame(c, s, task.id, task.payload, evicted);
  }

  lemma VerifyKeepsInv(c: Config, s: Shared, t: nat, task: Task)
    requires Inv(c, s) && (task.Verifying? || task.Judged? || task.Invalidating? || task.Unpinning?)
    ensures Inv(c, VerifyStep(c, s, t, task))
  {
    hide TiersOk, TasksOk, LogOk, ColdGet, Unpinned;
    TasksMove(c, s.tasks, t, Judged(task.id, ColdGet(c.hash, s.cold, task.id).Ok?));
    TasksMove(c, s.tasks, t, Invalidating(task.id));
    TasksMove(c, s.tasks, t, Unpinning(task.id));
    ShrinkKeepsTiers(c, s, {task.id});
    UnpinnedKeepsTiers(c, s, {task.id});
  }

  lemma PutKeepsInv(c: Config, s: Shared, t: nat, task: Task, ch: Choice)
    requires Inv(c, s) && (task.Storing? || task.Warming?) && PutStep(c, s, t, task, ch).Some?
    ensures Inv(c, PutStep(c, s, t, task, ch).value)
  {
    hide TiersOk, TasksOk, LogOk, ColdPutAll, AppendFree, Insert, OpenedBy;
    TasksMove(c, s.tasks, t, task);
    if task.Storing? {
      TasksMove(c, s.tasks, t, Warming(task.payloads));
    } else if task.rest != [] {
      var p := task.rest[0];
      TasksMove(c, s.tasks, t, Warming(task.rest[1..]));
      InsertKeepsTiers(c, s, c.hash(p), p, ch.evicted);
      InsertFrame(c, s, c.hash(p), p, ch.evicted);
    }
  }

  lemma RepairKeepsInv(c: Config, s: Shared, t: nat, task: Task, ch: Choice)
    requires Inv(c, s) && TaskOk(c, task) && (task.Mending? || task.Mended? || task.Lifted?)
    requires RepairStep(c, s, t, task, ch).Some?
    ensures Inv(c, RepairStep(c, s, t, task, ch).value)
  {
    hide TiersOk, TasksOk, LogOk, ColdGet, AppendFree, Insert;
    TasksMove(c, s.tasks, t, task);
    if c.hash(task.payload) == task.id {
      TasksMove(c, s.tasks, t, Mended(task.id, task.payload));
      TasksMove(c, s.tasks, t, Lifted(task.id, task.payload));
      InsertKeepsTiers(c, s, task.id, task.payload, ch.evicted);
      InsertFrame(c, s, task.id, task.payload, ch.evicted);
    }
  }

  lemma CompactKeepsInv(c: Config, s: Shared, t: nat, task: Task, ch: Choice)
    requires Inv(c, s) && (task.Sealing? || task.SweepPinned? || task.SweepWarm? || task.Dropping?)
    requires CompactStep(c, s, t, task, ch).Some?
    ensures Inv(c, CompactStep(c, s, t, task, ch).value)
  {
    hide TiersOk, LogOk, TasksOk, CompactStep, OneTask;
    TasksOne(c, s.tasks, CompactStep(c, s, t, task, ch).value.tasks, t);
    CompactKeepsTiers(c, s, t, task, ch);
  }

  lemma CompactKeepsTiers(c: Config, s: Shared, t: nat, task: Task, ch: Choice)
    requires TiersOk(c, s.warm, s.pinned, s.pinnedBytes)
    requires task.Sealing? || task.SweepPinned? || task.SweepWarm? || task.Dropping?
    requires CompactStep(c, s, t, task, ch).Some?
    ensures var r := CompactStep(c, s, t, task, ch).value; TiersOk(c, r.warm, r.pinned, r.pinnedBytes)
  {
    hide TiersOk, Unpinned, Doomed, Damaged, OneTask;
    ShrinkKeepsTiers(c, s, {ch.pick});
    UnpinnedKeepsTiers(c, s, s.pinned.Keys - s.cold.Keys);
  }

  lemma GoKeepsInv(c: Config, s: Shared, t: nat, ch: Choice)
    requires Inv(c, s) && t in s.tasks && GoStep(c, s, t, s.tasks[t], ch).Some?
    ensures Inv(c, GoStep(c, s, t, s.tasks[t], ch).value)
  {
    hide TiersOk, LogOk, PinStep, ReadStep, VerifyStep, PutStep, RepairStep, CompactStep;
    var task := s.tasks[t];
    assert TaskOk(c, task);
    match task {
      case Pinning(_) =>
      case Fetched(id, payload) => PinKeepsTiers(c, s, t, id, payload);
      case Asking(_, _) => ReadKeepsInv(c, s, t, task, ch);
      case InPinned(_, _) => ReadKeepsInv(c, s, t, task, ch);
      case InWarm(_, _) => ReadKeepsInv(c, s, t, task, ch);
      case InCold(_, _) => ReadKeepsInv(c, s, t, task, ch);
      case Captured(_, _, _) => ReadKeepsInv(c, s, t, task, ch);
      case Loaded(_, _, _) => ReadKeepsInv(c, s, t, task, ch);
      case Storing(_, _) => PutKeepsInv(c, s, t, task, ch);
      case Warming(_) => PutKeepsInv(c, s, t, task, ch);
      case Mending(_, _, _) => RepairKeepsInv(c, s, t, task, ch);
      case Mended(_, _) => RepairKeepsInv(c, s, t, task, ch);
      case Lifted(_, _) => RepairKeepsInv(c, s, t, task, ch);
      case Verifying(_) => VerifyKeepsInv(c, s, t, task);
      case Judged(_, _) => VerifyKeepsInv(c, s, t, task);
      case Invalidating(_) => VerifyKeepsInv(c, s, t, task);
      case Unpinning(_) => VerifyKeepsInv(c, s, t, task);
      case _ => CompactKeepsInv(c, s, t, task, ch);
    }
  }

  /** Whatever step comes next: cached bytes hash to their ids, the pinned
      counter is the exact sum within its budget, and so is every answer. */
  lemma StepKeepsInv(c: Config, s: Shared, a: Action)
    requires Inv(c, s)
    ensures Inv(c, Do(c, s, a))
  {
    hide Total, Sizes, GoStep;
    if a.Go? && Next(c, s, a).Some? { GoKeepsInv(c, s, a.t, a.choice); }
  }

  lemma {:induction false} RunKeepsInv(c: Config, s: Shared, actions: seq<Action>)
    requires Inv(c, s)
    ensures Inv(c, RunFrom(c, s, actions))
    decreases |actions|
  {
    hide Inv, Do;
    if actions != [] {
      var n := |actions| - 1;
      RunKeepsInv(c, s, actions[..n]);
      StepKeepsInv(c, RunFrom(c, s, actions[..n]), actions[n]);
    }
  }
}
