/** The two tiers under concurrent calls: the steps that reads, pins, puts,
    verifications, repairs and compactions take between locks, evictions and
    disk decay, and runs of them in any order. */
module TierSteps {
  import opened Core
  import opened MapSums
  import opened Tiered

  datatype Config = Config(hash: Hasher, warmBudget: U64, pinnedBudget: U64)

  /** A call in flight, named by the step it takes next. */
  datatype Task =
    | Pinning(id: BlockId)
    | Asking(id: BlockId, pin: bool)
    | InPinned(id: BlockId, pin: bool)
    | InWarm(id: BlockId, pin: bool)
    | InCold(id: BlockId, pin: bool)
    | Captured(id: BlockId, medium: Medium, pin: bool)
    | Loaded(id: BlockId, payload: Bytes, pin: bool)
    | Fetched(id: BlockId, payload: Bytes)
    | Storing(payloads: seq<Bytes>, rolls: set<nat>)
    | Warming(rest: seq<Bytes>)
    | Verifying(id: BlockId)
    | Judged(id: BlockId, good: bool)
    | Invalidating(id: BlockId)
    | Unpinning(id: BlockId)
    | Mending(id: BlockId, payload: Bytes, roll: bool)
    | Mended(id: BlockId, payload: Bytes)
    | Lifted(id: BlockId, payload: Bytes)
    | Sealing(live: set<BlockId>, segment: nat, sealed: nat, gone: set<BlockId>)
    | SweepPinned(gone: set<BlockId>)
    | SweepWarm(gone: set<BlockId>)
    | Dropping(dead: set<BlockId>)

  /** The answer a read gave. */
  datatype Told = Told(id: BlockId, answer: Result<Bytes, TierError>)

  datatype Shared = Shared(
    cold: Cold,
    active: nat,
    poisoned: bool,
    quarantined: set<BlockId>,
    warm: Blocks,
    pinned: Blocks,
    pinnedBytes: nat,
    tasks: map<nat, Task>,
    log: seq<Told>)

  /** What the disk does to a step: nothing, or an error, which strikes a rewrite
      before the rewritten segment replaces the old one or after. */
  datatype Fault = Smooth | Early | Late

  /** All a step leaves open: what the cache evicts on an insert, the disk error
      if any, the segments a failing append had opened by then, and the entry a
      sweep takes next. */
  datatype Choice = Choice(evicted: set<BlockId>, fault: Fault, rolled: nat, pick: BlockId)

  datatype Action =
    | Start(t: nat, task: Task)
    | Go(t: nat, choice: Choice)
    | Evict(ids: set<BlockId>)
    | Decay(id: BlockId, medium: Medium)

  // ----------------------------------------------------------------- the steps

  function Live(ids: set<BlockId>): (live: BlockId -> bool)
  {
    id => id in ids
  }

  function Rolls(at: set<nat>): (rolls: nat -> bool)
  {
    n => n in at
  }

  /** Appends and the rewriting half of compaction share one lock. */
  ghost predicate AppendFree(tasks: map<nat, Task>)
  {
    forall t :: t in tasks ==> !tasks[t].Sealing?
  }

  ghost predicate CanStart(s: Shared, task: Task)
  {
    match task
    case Asking(_, pin) => !pin
    case Sealing(_, segment, sealed, gone) => segment == 0 && sealed == s.active && gone == {} && AppendFree(s.tasks)
    case _ => task.Pinning? || task.Storing? || task.Verifying? || task.Mending?
  }

  function To(s: Shared, t: nat, task: Task): (r: Shared)
  {
    s.(tasks := s.tasks[t := task])
  }

  function End(s: Shared, t: nat): (r: Shared)
  {
    s.(tasks := s.tasks - {t})
  }

  function Tell(s: Shared, id: BlockId, answer: Result<Bytes, TierError>): (r: Shared)
  {
    s.(log := s.log + [Told(id, answer)])
  }

  /** A call that is not a compaction. */
  ghost predicate Quiet(task: Task)
  {
    !task.Sealing? && !task.SweepPinned? && !task.SweepWarm? && !task.Dropping?
  }

  /** Call `t` has moved on or ended, and no other. */
  ghost predicate OneTask(before: map<nat, Task>, after: map<nat, Task>, t: nat)
  {
    after == before - {t} || (t in after && after == before[t := after[t]])
  }

  /** A read has its bytes: it answers, and a pin goes on with them. */
  function Hit(s: Shared, t: nat, id: BlockId, payload: Bytes, pin: bool): (r: Shared)
  {
    var told := Tell(s, id, Ok(payload));
    if pin then To(told, t, Fetched(id, payload)) else End(told, t)
  }

  function Insert(c: Config, s: Shared, id: BlockId, payload: Bytes, evicted: set<BlockId>): (r: Shared)
  {
    if |payload| <= c.warmBudget then s.(warm := s.warm[id := payload] - evicted) else s
  }

  predicate Reading(task: Task)
  {
    task.Asking? || task.InPinned? || task.InWarm? || task.InCold? || task.Captured? || task.Loaded?
  }

  /** What a read does next: answer, go on as another task, or have its bytes. */
  datatype Turn = Answers(answer: Result<Bytes, TierError>) | On(task: Task) | HasBytes(payload: Bytes)

  ghost function ReadTurn(c: Config, s: Shared, task: Task, ch: Choice): (turn: Turn)
    requires Reading(task)
    ensures turn.On? ==> Reading(turn.task) && turn.task.id == task.id && turn.task.pin == task.pin
    ensures turn.On? ==> !turn.task.Asking?
    ensures turn.Answers? ==> turn.answer.Err?
  {
    match task
    case Asking(id, pin) => if id in s.quarantined then Answers(Err(Corrupt(id))) else On(InPinned(id, pin))
    case InPinned(id, pin) => if id in s.pinned then HasBytes(s.pinned[id]) else On(InWarm(id, pin))
    case InWarm(id, pin) => if id in s.warm then HasBytes(s.warm[id]) else On(InCold(id, pin))
    case InCold(id, pin) =>
      if id in s.cold then On(Captured(id, s.cold[id].medium, pin)) else Answers(Err(BlockNotFound(id)))
    case Captured(id, medium, pin) =>
      var got := if ch.fault.Smooth? then ReadMedium(c.hash, id, medium) else Err(IoFailed);
      if got.Ok? then On(Loaded(id, got.value, pin)) else Answers(got)
    case Loaded(_, payload, _) => HasBytes(payload)
  }

  /** The steps of a read, and of a pin once it reads. */
  ghost function ReadStep(c: Config, s: Shared, t: nat, task: Task, ch: Choice): (r: Shared)
    requires Reading(task)
    ensures OneTask(s.tasks, r.tasks, t) && (t in r.tasks ==> Quiet(r.tasks[t]))
    ensures r == s.(warm := r.warm, tasks := r.tasks, log := r.log) && (!task.Loaded? ==> r.warm == s.warm)
  {
    var s1 := if task.Loaded? then Insert(c, s, task.id, task.payload, ch.evicted) else s;
    match ReadTurn(c, s, task, ch)
    case Answers(answer) => End(Tell(s1, task.id, answer), t)
    case On(next) => To(s1, t, next)
    case HasBytes(payload) => Hit(s1, t, task.id, payload, task.pin)
  }

  /** The pinned map and its byte counter change together, under its lock. */
  function PinStep(c: Config, s: Shared, t: nat, id: BlockId, payload: Bytes): (r: Shared)
    ensures r == s.(pinned := r.pinned, pinnedBytes := r.pinnedBytes, tasks := s.tasks - {t})
    ensures r.pinned == s.pinned || (r.pinned == s.pinned[id := payload] && |payload| <= c.pinnedBudget)
  {
    if id in s.pinned || s.pinnedBytes + |payload| > c.pinnedBudget then End(s, t)
    else End(s.(pinned := s.pinned[id := payload], pinnedBytes := s.pinnedBytes + |payload|), t)
  }

  ghost function Unpinned(s: Shared, ids: set<BlockId>): (r: Shared)
    ensures r == s.(pinned := s.pinned - ids, pinnedBytes := r.pinnedBytes)
  {
    var freed := Total(Sizes(map id | id in s.pinned && id in ids :: s.pinned[id]));
    s.(pinned := s.pinned - ids, pinnedBytes := if freed <= s.pinnedBytes then s.pinnedBytes - freed else 0)
  }

  ghost function VerifyStep(c: Config, s: Shared, t: nat, task: Task): (r: Shared)
    requires task.Verifying? || task.Judged? || task.Invalidating? || task.Unpinning?
    ensures OneTask(s.tasks, r.tasks, t) && (t in r.tasks ==> Quiet(r.tasks[t]) && !Reading(r.tasks[t]))
    ensures r.log == s.log
    ensures forall id :: id in s.quarantined && task != Judged(id, true) ==> id in r.quarantined
  {
    match task
    case Verifying(id) => if id in s.cold then To(s, t, Judged(id, ColdGet(c.hash, s.cold, id).Ok?)) else End(s, t)
    case Judged(id, good) =>
      if good then End(s.(quarantined := s.quarantined - {id}), t)
      else To(s.(quarantined := s.quarantined + {id}), t, Invalidating(id))
    case Invalidating(id) => To(s.(warm := s.warm - {id}), t, Unpinning(id))
    case Unpinning(id) => End(Unpinned(s, {id}), t)
  }

  /** A failed append publishes nothing, refuses all later ones, and leaves the
      segments it had opened. */
  function Poisoned(s: Shared, whole: nat, rolled: nat): (r: Shared)
  {
    s.(poisoned := true, active := if s.active <= whole then OpenedBy(s.active, whole, rolled) else s.active)
  }

  /** Write-through: the cold index first, the cache block by block after. */
  ghost function PutStep(c: Config, s: Shared, t: nat, task: Task, ch: Choice): (r: Option<Shared>)
    requires task.Storing? || task.Warming?
    ensures r.Some? ==>
              && r.value == s.(cold := r.value.cold, active := r.value.active, poisoned := r.value.poisoned,
                               warm := r.value.warm, tasks := r.value.tasks)
              && OneTask(s.tasks, r.value.tasks, t) && (t in r.value.tasks ==> r.value.tasks[t].Warming?)
  {
    match task
    case Storing(payloads, rolls) =>
      if !AppendFree(s.tasks) then None
      else if s.poisoned then Some(End(s, t))
      else
        var (cold, active) := ColdPutAll(c.hash, s.cold, s.active, payloads, Rolls(rolls));
        if ch.fault.Smooth? then Some(To(s.(cold := cold, active := active), t, Warming(payloads)))
        else Some(End(Poisoned(s, active, ch.rolled), t))
    case Warming(rest) =>
      if rest == [] then Some(End(s, t))
      else Some(To(Insert(c, s, c.hash(rest[0]), rest[0], ch.evicted), t, Warming(rest[1..])))
  }

  ghost function RepairStep(c: Config, s: Shared, t: nat, task: Task, ch: Choice): (r: Option<Shared>)
    requires task.Mending? || task.Mended? || task.Lifted?
    ensures r.Some? ==>
              && OneTask(s.tasks, r.value.tasks, t)
              && (t in r.value.tasks ==> Quiet(r.value.tasks[t]) && !Reading(r.value.tasks[t])) && r.value.log == s.log
              && (forall id :: id in s.quarantined && !(task.Mended? && task.id == id) ==> id in r.value.quarantined)
              && s.cold.Keys <= r.value.cold.Keys && r.value.pinned == s.pinned
              && (task.Mending? && t in r.value.tasks ==>
                    r.value.tasks[t] == Mended(task.id, task.payload) && task.id in r.value.cold)
              && (task.Mended? ==> t in r.value.tasks && r.value.tasks[t] == Lifted(task.id, task.payload))
              && (!task.Lifted? ==> r.value.warm == s.warm)
              && (task.Lifted? ==> r.value == End(Insert(c, s, task.id, task.payload, ch.evicted), t))
  {
    match task
    case Mending(id, payload, roll) =>
      if c.hash(payload) != id then Some(End(s, t))
      else if !AppendFree(s.tasks) then None
      else if s.poisoned then Some(End(s, t))
      else if ColdGet(c.hash, s.cold, id).Ok? then Some(To(s, t, Mended(id, payload)))
      else
        var here := if roll then s.active + 1 else s.active;
        if !ch.fault.Smooth? then Some(End(Poisoned(s, here, ch.rolled), t))
        else Some(To(s.(cold := s.cold[id := Slot(here, Reads(payload))], active := here), t, Mended(id, payload)))
    case Mended(id, payload) => Some(To(s.(quarantined := s.quarantined - {id}), t, Lifted(id, payload)))
    case Lifted(id, payload) => Some(End(Insert(c, s, id, payload, ch.evicted), t))
  }

  /** Segments are rewritten one by one, and a rewrite can fail before or after the
      dead blocks are gone; only a compaction that got through all segments and
      dropped something sweeps, the pinned tier first. */
  ghost function CompactStep(c: Config, s: Shared, t: nat, task: Task, ch: Choice): (r: Option<Shared>)
    requires task.Sealing? || task.SweepPinned? || task.SweepWarm? || task.Dropping?
    ensures r.Some? ==>
              && r.value == s.(cold := r.value.cold, warm := r.value.warm, pinned := r.value.pinned,
                               pinnedBytes := r.value.pinnedBytes, tasks := r.value.tasks)
              && OneTask(s.tasks, r.value.tasks, t) && (t in r.value.tasks ==> !Quiet(r.value.tasks[t]))
  {
    match task
    case Sealing(live, segment, sealed, gone) =>
      if segment >= sealed then Some(if gone == {} then End(s, t) else To(s, t, SweepPinned(gone)))
      else
        var drop := Doomed(s.cold, segment, Live(live));
        if drop != {} && (ch.fault.Early? || Damaged(c.hash, s.cold, segment, Live(live)) != {}) then Some(End(s, t))
        else if drop != {} && ch.fault.Late? then Some(End(s.(cold := s.cold - drop), t))
        else Some(To(s.(cold := s.cold - drop), t, Sealing(live, segment + 1, sealed, gone + drop)))
    case SweepPinned(gone) => Some(To(Unpinned(s, s.pinned.Keys - s.cold.Keys), t, SweepWarm(gone)))
    case SweepWarm(_) => Some(To(s, t, Dropping(s.warm.Keys - s.cold.Keys)))
    case Dropping(dead) =>
      if dead == {} then Some(End(s, t))
      else if ch.pick in dead then Some(To(s.(warm := s.warm - {ch.pick}), t, Dropping(dead - {ch.pick})))
      else None
  }

  ghost function GoStep(c: Config, s: Shared, t: nat, task: Task, ch: Choice)
    : (r: Option<Shared>)
  {
    match task
    case Pinning(id) => Some(if id in s.pinned then End(s, t) else To(s, t, Asking(id, true)))
    case Fetched(id, payload) => Some(PinStep(c, s, t, id, payload))
    case Storing(_, _) => PutStep(c, s, t, task, ch)
    case Warming(_) => PutStep(c, s, t, task, ch)
    case Verifying(_) => Some(VerifyStep(c, s, t, task))
    case Judged(_, _) => Some(VerifyStep(c, s, t, task))
    case Invalidating(_) => Some(VerifyStep(c, s, t, task))
    case Unpinning(_) => Some(VerifyStep(c, s, t, task))
    case Mending(_, _, _) => RepairStep(c, s, t, task, ch)
    case Mended(_, _) => RepairStep(c, s, t, task, ch)
    case Lifted(_, _) => RepairStep(c, s, t, task, ch)
    case Sealing(_, _, _, _) => CompactStep(c, s, t, task, ch)
    case SweepPinned(_) => CompactStep(c, s, t, task, ch)
    case SweepWarm(_) => CompactStep(c, s, t, task, ch)
    case Dropping(_) => CompactStep(c, s, t, task, ch)
    case _ => Some(ReadStep(c, s, t, task, ch))
  }

  ghost function Next(c: Config, s: Shared, a: Action): (r: Option<Shared>)
  {
    match a
    case Start(t, task) => if t in s.tasks || !CanStart(s, task) then None else Some(To(s, t, task))
    case Go(t, ch) => if t !in s.tasks then None else GoStep(c, s, t, s.tasks[t], ch)
    case Evict(ids) => Some(s.(warm := s.warm - ids))
    case Decay(id, medium) =>
      if id in s.cold then Some(s.(cold := s.cold[id := s.cold[id].(medium := medium)])) else None
  }

  /** An action that is not enabled leaves the state alone. */
  ghost function Do(c: Config, s: Shared, a: Action): (r: Shared)
  {
    if Next(c, s, a).Some? then Next(c, s, a).value else s
  }

  ghost function RunFrom(c: Config, s: Shared, actions: seq<Action>): (r: Shared)
  {
    if actions == [] then s else Do(c, RunFrom(c, s, actions[..|actions| - 1]), actions[|actions| - 1])
  }

  lemma RunLast(c: Config, s: Shared, actions: seq<Action>)
    requires actions != []
    ensures RunFrom(c, s, actions) == Do(c, RunFrom(c, s, actions[..|actions| - 1]), actions[|actions| - 1])
  {
    hide Do;
  }

  lemma RunNone(c: Config, s: Shared)
    ensures RunFrom(c, s, []) == s
  {
  }

  lemma InsertFrame(c: Config, s: Shared, id: BlockId, payload: Bytes, evicted: set<BlockId>)
    ensures var r := Insert(c, s, id, payload, evicted);
            r == s.(warm := r.warm) && r.warm.Keys <= s.warm.Keys + (if |payload| <= c.warmBudget then {id} else {})
  {
  }

  /** A read that is not yet loaded changes nothing but its task and the answers. */
  lemma ReadCases(c: Config, s: Shared, t: nat, task: Task, ch: Choice)
    requires Reading(task)
    ensures var r, turn := ReadStep(c, s, t, task, ch), ReadTurn(c, s, task, ch);
            var s1 := if task.Loaded? then Insert(c, s, task.id, task.payload, ch.evicted) else s;
            && (turn.Answers? ==> r == End(Tell(s1, task.id, turn.answer), t))
            && (turn.On? ==> r == To(s1, t, turn.task))
            && (turn.HasBytes? ==> r == Hit(s1, t, task.id, turn.payload, task.pin))
            && (task.Loaded? ==> s1 == s.(warm := s1.warm))
  {
    hide Insert, ReadTurn, Hit, Tell, To, End;
    if task.Loaded? { InsertFrame(c, s, task.id, task.payload, ch.evicted); }
  }

  lemma GoReads(c: Config, s: Shared, t: nat, task: Task, ch: Choice)
    requires Reading(task)
    ensures GoStep(c, s, t, task, ch) == Some(ReadStep(c, s, t, task, ch))
  {
    hide ReadStep;
  }
}
