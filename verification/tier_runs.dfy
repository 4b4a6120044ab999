/** Runs of the tiers' steps put together, and calls left to themselves. */
module TierRuns {
  import opened Core
  import opened Encoding
  import opened MapSums
  import opened Tiered
  import opened TierSteps

  lemma RunOne(c: Config, s: Shared, a: Action)
    ensures RunFrom(c, s, [a]) == Do(c, s, a)
  {
    assert [a][..0] == [];
  }

  lemma {:induction false} RunConcat(c: Config, s: Shared, first: seq<Action>, later: seq<Action>)
    ensures RunFrom(c, s, first + later) == RunFrom(c, RunFrom(c, s, first), later)
    decreases |later|
  {
    hide Do;
    if later == [] {
      assert first + later == first;
    } else {
      var n := |later| - 1;
      assert (first + later)[..|first| + n] == first + later[..n];
      RunConcat(c, s, first, later[..n]);
    }
  }

  ghost predicate StartsNoCompaction(actions: seq<Action>)
  {
    forall k :: 0 <= k < |actions| && actions[k].Start? ==> !actions[k].task.Sealing?
  }

  lemma BothStartNone(a: seq<Action>, b: seq<Action>)
    requires StartsNoCompaction(a) && StartsNoCompaction(b)
    ensures StartsNoCompaction(a + b)
  {
  }

  /** Nothing evicted, no disk error. */
  function Plain(pick: BlockId): (ch: Choice)
  {
    Choice({}, Smooth, 0, pick)
  }

  const ANY: BlockId := BlockId(Zeros(32))

  function Step(t: nat): (a: Action)
  {
    Go(t, Plain(ANY))
  }

  lemma Then(c: Config, s: Shared, a: Action, rest: seq<Action>)
    requires StartsNoCompaction(rest) && !(a.Start? && a.task.Sealing?)
    ensures StartsNoCompaction([a] + rest) && RunFrom(c, s, [a] + rest) == RunFrom(c, Do(c, s, a), rest)
  {
    RunOne(c, s, a);
    RunConcat(c, s, [a], rest);
    assert forall k :: 0 <= k < |rest| ==> ([a] + rest)[k + 1] == rest[k];
  }

  lemma NoActions(c: Config, s: Shared) returns (actions: seq<Action>)
    ensures StartsNoCompaction(actions) && RunFrom(c, s, actions) == s
  {
    actions := [];
  }

  /** The next `n` steps of call `t`, with nothing in between. */
  function Alone(t: nat, n: nat): (actions: seq<Action>)
    ensures |actions| == n && StartsNoCompaction(actions)
  {
    seq(n, _ => Step(t))
  }

  lemma AloneNext(c: Config, s: Shared, t: nat, n: nat)
    ensures RunFrom(c, s, Alone(t, n + 1)) == Do(c, RunFrom(c, s, Alone(t, n)), Step(t))
    ensures RunFrom(c, s, Alone(t, 0)) == s
  {
    hide Do;
    assert Alone(t, n + 1)[..n] == Alone(t, n);
  }

  lemma AloneFirst(c: Config, s: Shared, t: nat, n: nat)
    ensures RunFrom(c, s, Alone(t, n + 1)) == RunFrom(c, Do(c, s, Step(t)), Alone(t, n))
  {
    hide Do, RunFrom, StartsNoCompaction;
    assert Alone(t, n + 1) == [Step(t)] + Alone(t, n);
    RunConcat(c, s, [Step(t)], Alone(t, n));
    RunOne(c, s, Step(t));
  }

  lemma OneStep(c: Config, s: Shared, t: nat) returns (actions: seq<Action>)
    ensures StartsNoCompaction(actions) && RunFrom(c, s, actions) == Do(c, s, Step(t))
  {
    hide Do;
    actions := Alone(t, 1);
    AloneNext(c, s, t, 0);
  }

  lemma Starts(c: Config, s: Shared, t: nat, task: Task)
    requires t !in s.tasks && CanStart(s, task)
    ensures RunFrom(c, s, [Start(t, task)]) == To(s, t, task)
  {
    RunOne(c, s, Start(t, task));
  }

  // -------------------------------------------------------------- single steps

  lemma ReadDo(c: Config, s: Shared, t: nat)
    requires t in s.tasks
    requires Reading(s.tasks[t])
    ensures Do(c, s, Step(t)) == ReadStep(c, s, t, s.tasks[t], Plain(ANY))
  {
    hide ReadStep;
  }

  lemma PinGoes(c: Config, s: Shared, t: nat)
    requires t in s.tasks && s.tasks[t].Pinning? && s.tasks[t].id !in s.pinned
    ensures Do(c, s, Step(t)) == To(s, t, Asking(s.tasks[t].id, true))
  {
  }

  lemma PinDo(c: Config, s: Shared, t: nat)
    requires t in s.tasks && s.tasks[t].Fetched?
    ensures Do(c, s, Step(t)) == PinStep(c, s, t, s.tasks[t].id, s.tasks[t].payload)
  {
    hide PinStep;
  }

  lemma VerifyDo(c: Config, s: Shared, t: nat)
    requires t in s.tasks
    requires s.tasks[t].Verifying? || s.tasks[t].Judged? || s.tasks[t].Invalidating? || s.tasks[t].Unpinning?
    ensures Do(c, s, Step(t)) == VerifyStep(c, s, t, s.tasks[t])
  {
    hide VerifyStep;
  }

  lemma CompactDo(c: Config, s: Shared, t: nat, pick: BlockId)
    requires t in s.tasks && !Quiet(s.tasks[t])
    ensures Next(c, s, Go(t, Plain(pick))) == CompactStep(c, s, t, s.tasks[t], Plain(pick))
  {
    hide CompactStep;
  }

  lemma CompactGoes(c: Config, s: Shared, t: nat)
    requires t in s.tasks && !Quiet(s.tasks[t]) && CompactStep(c, s, t, s.tasks[t], Plain(ANY)).Some?
    ensures Do(c, s, Step(t)) == CompactStep(c, s, t, s.tasks[t], Plain(ANY)).value
  {
    hide CompactStep;
    CompactDo(c, s, t, ANY);
  }

  lemma EndedStays(c: Config, s: Shared, t: nat)
    requires t !in s.tasks
    ensures Do(c, s, Step(t)) == s
  {
  }

  lemma {:induction false} EndedRun(c: Config, s: Shared, t: nat, n: nat)
    requires t !in s.tasks
    ensures RunFrom(c, s, Alone(t, n)) == s
    decreases n
  {
    hide Do, RunFrom, Alone;
    if n == 0 {
      AloneNext(c, s, t, 0);
    } else {
      EndedRun(c, s, t, n - 1);
      AloneNext(c, s, t, n - 1);
      EndedStays(c, s, t);
    }
  }

  // --------------------------------------------------------- a read on its own

  /** How many more steps a read has, at most. */
  function StepsLeft(task: Task): (n: nat)
  {
    match task
    case Asking(_, _) => 6
    case InPinned(_, _) => 5
    case InWarm(_, _) => 4
    case InCold(_, _) => 3
    case Captured(_, _, _) => 2
    case _ => 1
  }

  /** What a read that has got this far will answer if left alone. */
  ghost function Heading(c: Config, s: Shared, task: Task): (r: Result<Bytes, TierError>)
    requires Reading(task)
  {
    match task
    case Asking(id, _) => Answer(c.hash, s.quarantined, s.pinned, s.warm, s.cold, id)
    case InPinned(id, _) => Answer(c.hash, {}, s.pinned, s.warm, s.cold, id)
    case InWarm(id, _) => Answer(c.hash, {}, map[], s.warm, s.cold, id)
    case InCold(id, _) => ColdGet(c.hash, s.cold, id)
    case Captured(id, medium, _) => ReadMedium(c.hash, id, medium)
    case Loaded(_, payload, _) => Ok(payload)
  }

  lemma TurnHeads(c: Config, s: Shared, r: Shared, task: Task)
    requires Reading(task) && r == s.(tasks := r.tasks)
    ensures match ReadTurn(c, s, task, Plain(ANY))
            case Answers(answer) => answer == Heading(c, s, task)
            case On(next) =>
              Heading(c, r, next) == Heading(c, s, task) && StepsLeft(next) < StepsLeft(task) && !task.Loaded?
            case HasBytes(payload) => Ok(payload) == Heading(c, s, task)
  {
    hide ReadMedium;
  }

  /** One more step on the way to the same answer. */
  lemma HeadingKept(c: Config, s: Shared, t: nat, task: Task)
    requires Reading(task) && !task.pin
    ensures var r := ReadStep(c, s, t, task, Plain(ANY));
            if t in r.tasks then
              && Reading(r.tasks[t]) && !r.tasks[t].pin && r.tasks[t].id == task.id && r.log == s.log
              && StepsLeft(r.tasks[t]) < StepsLeft(task) && Heading(c, r, r.tasks[t]) == Heading(c, s, task)
            else r.log == s.log + [Told(task.id, Heading(c, s, task))]
  {
    hide ReadTurn, ReadStep, Insert, Heading, OneTask, StepsLeft;
    ReadCases(c, s, t, task, Plain(ANY));
    TurnHeads(c, s, s, task);
    var turn := ReadTurn(c, s, task, Plain(ANY));
    if turn.On? { TurnHeads(c, s, To(s, t, turn.task), task); }
  }

  lemma {:induction false} ReadAlone(c: Config, s: Shared, t: nat, n: nat)
    requires t in s.tasks && Reading(s.tasks[t]) && !s.tasks[t].pin && n >= StepsLeft(s.tasks[t])
    ensures var r := RunFrom(c, s, Alone(t, n));
            r.tasks == s.tasks - {t} && r.log == s.log + [Told(s.tasks[t].id, Heading(c, s, s.tasks[t]))]
    decreases n
  {
    hide Do, RunFrom, Alone, ReadStep, Heading;
    var r := ReadStep(c, s, t, s.tasks[t], Plain(ANY));
    ReadDo(c, s, t);
    AloneFirst(c, s, t, n - 1);
    HeadingKept(c, s, t, s.tasks[t]);
    if t in r.tasks {
      ReadAlone(c, r, t, n - 1);
      assert r.tasks - {t} == s.tasks - {t};
    } else {
      EndedRun(c, r, t, n - 1);
    }
  }

  /** A read with nothing in between answers what `TieredStore.Get` answers. */
  lemma GetAlone(c: Config, s: Shared, t: nat, id: BlockId)
    requires t !in s.tasks
    ensures var r := RunFrom(c, s, [Start(t, Asking(id, false))] + Alone(t, 6));
            && r.tasks == s.tasks
            && r.log == s.log + [Told(id, Answer(c.hash, s.quarantined, s.pinned, s.warm, s.cold, id))]
  {
    hide RunFrom, Alone, StartsNoCompaction;
    var s1 := To(s, t, Asking(id, false));
    Starts(c, s, t, Asking(id, false));
    RunConcat(c, s, [Start(t, Asking(id, false))], Alone(t, 6));
    ReadAlone(c, s1, t, 6);
    assert s1.tasks - {t} == s.tasks;
  }
}
