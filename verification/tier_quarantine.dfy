/** Quarantine over every interleaving of the tiers' steps. */
module TierQuarantine {
  import opened Core
  import opened MapSums
  import opened Tiered
  import opened TierSteps

  /** A read of `id` that is past the quarantine check. */
  ghost predicate PastCheck(task: Task, id: BlockId)
  {
    Reading(task) && !task.Asking? && task.id == id
  }

  /** The step by which a verification or a repair that succeeded lifts the quarantine. */
  ghost predicate Lifts(s: Shared, a: Action, id: BlockId)
  {
    a.Go? && a.t in s.tasks && (s.tasks[a.t] == Judged(id, true) || (s.tasks[a.t].Mended? && s.tasks[a.t].id == id))
  }

  /** Only a verification or a repair that succeeded lets a block out. */
  lemma StaysQuarantined(c: Config, s: Shared, a: Action, id: BlockId)
    requires id in s.quarantined && !Lifts(s, a, id)
    ensures id in Do(c, s, a).quarantined
  {
    hide PinStep, ReadStep, VerifyStep, RepairStep, PutStep, CompactStep;
  }

  /** No step of the run lifts the quarantine of `id`. */
  ghost predicate NeverLifted(c: Config, s: Shared, actions: seq<Action>, id: BlockId)
  {
    forall k :: 0 <= k < |actions| ==> !Lifts(RunFrom(c, s, actions[..k]), actions[k], id)
  }

  lemma NeverLiftedPrefix(c: Config, s: Shared, actions: seq<Action>, n: nat, id: BlockId)
    requires NeverLifted(c, s, actions, id) && n <= |actions|
    ensures NeverLifted(c, s, actions[..n], id)
  {
    assert forall k :: 0 <= k < n ==> actions[..n][..k] == actions[..k];
  }

  /** In every interleaving, and whatever reads are under way: from the moment a
      block is quarantined until a verification or a repair of it succeeds, it
      stays quarantined, and every read that gets to the check is refused. */
  lemma {:induction false} QuarantineRefuses(c: Config, s: Shared, actions: seq<Action>, id: BlockId)
    requires id in s.quarantined && NeverLifted(c, s, actions, id)
    ensures var r := RunFrom(c, s, actions);
            && id in r.quarantined
            && forall t, pin, ch :: t in r.tasks && r.tasks[t] == Asking(id, pin) ==>
                 Do(c, r, Go(t, ch)) == End(Tell(r, id, Err(Corrupt(id))), t)
    decreases |actions|
  {
    hide RunFrom, Lifts, NeverLifted;
    if actions != [] {
      var n := |actions| - 1;
      NeverLiftedPrefix(c, s, actions, n, id);
      QuarantineRefuses(c, s, actions[..n], id);
      LastNotLifted(c, s, actions, id);
      StaysQuarantined(c, RunFrom(c, s, actions[..n]), actions[n], id);
      RunLast(c, s, actions);
    } else {
      RunNone(c, s);
    }
  }

  lemma LastNotLifted(c: Config, s: Shared, actions: seq<Action>, id: BlockId)
    requires NeverLifted(c, s, actions, id) && actions != []
    ensures !Lifts(RunFrom(c, s, actions[..|actions| - 1]), actions[|actions| - 1], id)
  {
  }

  // ----------------------------------------------------- no bytes of it at all

  ghost predicate NonePast(tasks: map<nat, Task>, id: BlockId)
  {
    forall t :: t in tasks ==> !PastCheck(tasks[t], id)
  }

  /** `id` is quarantined and every read of it has yet to be checked. */
  ghost predicate Shut(s: Shared, id: BlockId)
  {
    id in s.quarantined && NonePast(s.tasks, id)
  }

  /** At most one more answer, and a refusal if it is about `id`. */
  ghost predicate Refused(before: seq<Told>, after: seq<Told>, id: BlockId)
  {
    after == before || exists told :: after == before + [told] && (told.id == id ==> told.answer == Err(Corrupt(id)))
  }

  lemma NonePastMove(tasks: map<nat, Task>, t: nat, task: Task, id: BlockId)
    requires NonePast(tasks, id)
    ensures NonePast(tasks - {t}, id) && (!PastCheck(task, id) ==> NonePast(tasks[t := task], id))
  {
    hide PastCheck;
  }

  lemma HitShut(s: Shared, t: nat, at: BlockId, payload: Bytes, pin: bool, id: BlockId)
    requires Shut(s, id) && at != id
    ensures var r := Hit(s, t, at, payload, pin); Shut(r, id) && Refused(s.log, r.log, id)
  {
    hide NonePast;
    NonePastMove(s.tasks, t, Fetched(at, payload), id);
    assert Hit(s, t, at, payload, pin).log == s.log + [Told(at, Ok(payload))];
  }

  lemma OneRefused(log: seq<Told>, told: Told, id: BlockId)
    requires told.id == id ==> told.answer == Err(Corrupt(id))
    ensures Refused(log, log, id) && Refused(log, log + [told], id)
  {
  }

  lemma AnswersShut(s: Shared, t: nat, told: Told, id: BlockId)
    requires Shut(s, id) && (told.id == id ==> told.answer == Err(Corrupt(id)))
    ensures var r := End(Tell(s, told.id, told.answer), t); Shut(r, id) && Refused(s.log, r.log, id)
  {
    hide NonePast, Refused;
    NonePastMove(s.tasks, t, Verifying(id), id);
    OneRefused(s.log, told, id);
  }

  lemma OnShut(s: Shared, t: nat, next: Task, id: BlockId)
    requires Shut(s, id) && !PastCheck(next, id)
    ensures Shut(To(s, t, next), id) && Refused(s.log, To(s, t, next).log, id)
  {
    hide NonePast, Refused;
    NonePastMove(s.tasks, t, next, id);
    OneRefused(s.log, Told(id, Err(Corrupt(id))), id);
  }

  lemma WarmShut(s: Shared, r: Shared, id: BlockId)
    requires Shut(s, id) && r == s.(warm := r.warm)
    ensures Shut(r, id)
  {
  }

  lemma ReadShut(c: Config, s: Shared, t: nat, task: Task, ch: Choice, id: BlockId)
    requires Shut(s, id) && !PastCheck(task, id) && Reading(task)
    ensures var r := ReadStep(c, s, t, task, ch); Shut(r, id) && Refused(s.log, r.log, id)
  {
    hide Shut, Hit, Insert, Refused, ReadTurn, ReadStep, Tell, To, End;
    var s1 := if task.Loaded? then Insert(c, s, task.id, task.payload, ch.evicted) else s;
    ReadCases(c, s, t, task, ch);
    WarmShut(s, s1, id);
    TurnShut(c, s, task, ch, id);
    var turn := ReadTurn(c, s, task, ch);
    if turn.Answers? {
      AnswersShut(s1, t, Told(task.id, turn.answer), id);
    } else if turn.On? {
      OnShut(s1, t, turn.task, id);
    } else {
      HitShut(s1, t, task.id, turn.payload, task.pin, id);
    }
  }

  /** A read of `id` that has yet to be checked is refused. */
  lemma TurnShut(c: Config, s: Shared, task: Task, ch: Choice, id: BlockId)
    requires Shut(s, id) && Reading(task) && !PastCheck(task, id)
    ensures task.id == id ==> ReadTurn(c, s, task, ch) == Answers(Err(Corrupt(id)))
  {
    hide ReadMedium, NonePast;
  }

  /** The other calls answer no read; each leaves the check as it was or lifts
      or imposes the quarantine of its own block. */
  lemma OtherShut(c: Config, s: Shared, t: nat, task: Task, ch: Choice, id: BlockId)
    requires Shut(s, id) && GoStep(c, s, t, task, ch).Some?
    requires !Reading(task)
    requires task != Judged(id, true) && !(task.Mended? && task.id == id)
    ensures var r := GoStep(c, s, t, task, ch).value; Shut(r, id) && r.log == s.log
  {
    hide NonePast, PinStep, VerifyStep, RepairStep, PutStep, CompactStep;
    var r := GoStep(c, s, t, task, ch).value;
    NonePastMove(s.tasks, t, if t in r.tasks then r.tasks[t] else task, id);
  }

  lemma StepStaysShut(c: Config, s: Shared, a: Action, id: BlockId)
    requires Shut(s, id) && !Lifts(s, a, id)
    ensures Shut(Do(c, s, a), id) && Refused(s.log, Do(c, s, a).log, id)
  {
    hide GoStep, ReadStep;
    if a.Go? && Next(c, s, a).Some? {
      var task := s.tasks[a.t];
      assert !PastCheck(task, id);
      if Reading(task) {
        ReadShut(c, s, a.t, task, a.choice, id);
        GoReads(c, s, a.t, task, a.choice);
      } else {
        OtherShut(c, s, a.t, task, a.choice, id);
      }
    }
  }

  /** Every answer since `before` about `id` is a refusal. */
  ghost predicate RefusedSince(before: seq<Told>, after: seq<Told>, id: BlockId)
  {
    && |before| <= |after| && after[..|before|] == before
    && forall i :: |before| <= i < |after| && after[i].id == id ==> after[i].answer == Err(Corrupt(id))
  }

  lemma RefusedMore(before: seq<Told>, log: seq<Told>, after: seq<Told>, id: BlockId)
    requires RefusedSince(before, log, id) && Refused(log, after, id)
    ensures RefusedSince(before, after, id)
  {
  }

  lemma RefusedNone(log: seq<Told>, id: BlockId)
    ensures RefusedSince(log, log, id)
  {
  }

  /** So, once the reads that were past the check are done, no bytes of the block
      are given out at all until then. */
  lemma {:induction false} QuarantineSilences(c: Config, s: Shared, actions: seq<Action>, id: BlockId)
    requires Shut(s, id) && NeverLifted(c, s, actions, id)
    ensures Shut(RunFrom(c, s, actions), id) && RefusedSince(s.log, RunFrom(c, s, actions).log, id)
    decreases |actions|
  {
    hide Shut, Do, Lifts, RefusedSince, Refused, NeverLifted;
    if actions == [] {
      RefusedNone(s.log, id);
    } else {
      var n := |actions| - 1;
      NeverLiftedPrefix(c, s, actions, n, id);
      QuarantineSilences(c, s, actions[..n], id);
      LastNotLifted(c, s, actions, id);
      StepStaysShut(c, RunFrom(c, s, actions[..n]), actions[n], id);
      RefusedMore(s.log, RunFrom(c, s, actions[..n]).log, RunFrom(c, s, actions).log, id);
    }
  }
}
