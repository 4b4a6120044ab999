/** Durable upload guards: a journal of generations, counted write guards and
    release checks that exclude them, all behind one lock. */
module Retention {
  import opened Core
  import opened Encoding
  import opened RetentionJournal

  /** Held by the local write operation; `token` tells guard objects apart. */
  datatype WriteGuard = WriteGuard(token: nat, ids: set<BlockId>)

  datatype ReleaseCheck = ReleaseCheck(id: BlockId)

  datatype RetentionError =
    | BatchTooLarge | NeedsRestart | ReservedByCheck | SequenceExhausted | CapacityExhausted | WriteFailed
    | StaleGeneration | Busy

  // ------------------------------------------------------------------ opening

  /** Read a journal file from the start. */
  method RecoverFile(hash: Hasher, file: Bytes) returns (r: Result<Recovered, JournalError>)
    ensures r == Recover(hash, file)
  {
    hide ReadRecord;
    if |file| > MAX_BYTES {
      return Err(TooLarge);
    }
    var st := Recovered(map[], 0, 0);
    while true
      invariant st.bytes <= |file|
      invariant RecoverFrom(hash, file, st) == RecoverFrom(hash, file, Recovered(map[], 0, 0))
      decreases |file| - st.bytes
    {
      RecordsFit(hash, file, st.bytes, st.sequence);
      var step := ReadRecord(hash, file, st.bytes, st.sequence);
      if step.Stop? {
        return Ok(st);
      }
      if step.Bad? {
        return Err(step.error);
      }
      var gens := StampAll(st.ids, step.ids, st.sequence + 1);
      if |gens| > MAX_IDS {
        return Err(TooManyIds);
      }
      st := Recovered(gens, st.sequence + 1, st.bytes + RecordSize(|step.ids|));
    }
  }

  lemma RecordsFit(hash: Hasher, file: Bytes, pos: nat, sequence: nat)
    requires pos <= |file|
    ensures var s := ReadRecord(hash, file, pos, sequence); s.More? ==> pos + RecordSize(|s.ids|) <= |file|
  {
  }

  /** Note the new generation of each id. */
  lemma StampNext(gens: Generations, ids: seq<BlockId>, i: nat, sequence: nat)
    requires i < |ids|
    ensures Stamp(gens, ids[..i + 1], sequence) == Stamp(gens, ids[..i], sequence)[ids[i] := sequence]
  {
    assert forall id :: id in ids[..i + 1] <==> id in ids[..i] || id == ids[i];
  }

  method StampAll(gens: Generations, ids: seq<BlockId>, sequence: nat) returns (r: Generations)
    ensures r == Stamp(gens, ids, sequence)
  {
    r := gens;
    assert Stamp(gens, [], sequence) == gens;
    for i := 0 to |ids|
      invariant r == Stamp(gens, ids[..i], sequence)
    {
      StampNext(gens, ids, i, sequence);
      r := r[ids[i] := sequence];
    }
    assert ids[..|ids|] == ids;
  }

  // ----------------------------------------------------------------- counting

  function CountOf(active: map<BlockId, nat>, id: BlockId): (n: nat)
  {
    if id in active then active[id] else 0
  }

  /** The live guards that hold `id`. */
  function Holders(guards: map<nat, set<BlockId>>, id: BlockId): (tokens: set<nat>)
  {
    set t | t in guards && id in guards[t]
  }

  /** The counters are exactly the numbers of live guards. */
  ghost predicate Counts(active: map<BlockId, nat>, guards: map<nat, set<BlockId>>)
  {
    forall id :: CountOf(active, id) == |Holders(guards, id)| && (id in active ==> active[id] > 0)
  }

  /** Every counter in `ids` up or down by one, the others alone. */
  ghost predicate Moved(before: map<BlockId, nat>, after: map<BlockId, nat>, ids: set<BlockId>, delta: int)
  {
    forall id :: CountOf(after, id) == CountOf(before, id) + (if id in ids then delta else 0)
              && (id in after ==> after[id] > 0)
  }

  lemma HoldersAdd(guards: map<nat, set<BlockId>>, t: nat, ids: set<BlockId>, id: BlockId)
    requires t !in guards
    ensures |Holders(guards[t := ids], id)| == |Holders(guards, id)| + (if id in ids then 1 else 0)
  {
    var more := if id in ids then {t} else {};
    assert Holders(guards[t := ids], id) == Holders(guards, id) + more;
  }

  lemma HoldersDrop(guards: map<nat, set<BlockId>>, t: nat, id: BlockId)
    requires t in guards
    ensures |Holders(guards - {t}, id)| == |Holders(guards, id)| - (if id in guards[t] then 1 else 0)
  {
    var more := if id in guards[t] then {t} else {};
    assert Holders(guards, id) == Holders(guards - {t}, id) + more;
  }

  lemma GuardAdded(active: map<BlockId, nat>, after: map<BlockId, nat>, guards: map<nat, set<BlockId>>, t: nat,
                   ids: set<BlockId>)
    requires Counts(active, guards) && t !in guards && Moved(active, after, ids, 1)
    ensures Counts(after, guards[t := ids])
  {
    hide Holders, CountOf;
    forall id ensures CountOf(after, id) == |Holders(guards[t := ids], id)| {
      HoldersAdd(guards, t, ids, id);
    }
  }

  lemma GuardRemoved(active: map<BlockId, nat>, after: map<BlockId, nat>, guards: map<nat, set<BlockId>>, t: nat)
    requires Counts(active, guards) && t in guards && Moved(active, after, guards[t], -1)
    ensures Counts(after, guards - {t})
  {
    hide Holders, CountOf;
    forall id ensures CountOf(after, id) == |Holders(guards - {t}, id)| {
      HoldersDrop(guards, t, id);
    }
  }

  /** Every id a live guard holds has its counter. */
  lemma HeldIsCounted(active: map<BlockId, nat>, guards: map<nat, set<BlockId>>, t: nat)
    requires Counts(active, guards) && t in guards
    ensures forall id :: id in guards[t] ==> id in active
  {
    forall id | id in guards[t] ensures id in active {
      assert t in Holders(guards, id);
      assert CountOf(active, id) == |Holders(guards, id)|;
    }
  }

  lemma {:induction false} SetOfSeqSize(ids: seq<BlockId>)
    ensures |set id | id in ids| <= |ids|
    decreases |ids|
  {
    if ids != [] {
      SetOfSeqSize(ids[1..]);
      assert (set id | id in ids) == {ids[0]} + set id | id in ids[1..];
    }
  }

  /** List a set in whatever order it comes. */
  method Enumerate(ids: set<BlockId>) returns (list: seq<BlockId>)
    ensures |list| == |ids| && forall id :: id in list <==> id in ids
  {
    list := [];
    var rest := ids;
    while rest != {}
      invariant rest <= ids && |list| + |rest| == |ids| && forall id :: id in list <==> id in ids && id !in rest
      decreases rest
    {
      var id :| id in rest;
      list := list + [id];
      rest := rest - {id};
    }
  }

  // --------------------------------------------------------------- invariants

  ghost predicate Logged(hash: Hasher, batches: seq<seq<BlockId>>, ids: Generations, sequence: nat, bytes: nat)
  {
    && GoodJournal(hash, batches) && ids == Latest(batches)
    && sequence == |batches| && bytes == |Journal(hash, batches)|
  }

  /** The file is the journal; after a failed append, it may also hold any part
      of the record that was being written. */
  ghost predicate OnDisk(hash: Hasher, batches: seq<seq<BlockId>>, pending: seq<BlockId>, file: Bytes, failed: bool)
  {
    if failed then
      GoodJournal(hash, batches + [pending]) && Journal(hash, batches) <= file <= Journal(hash, batches + [pending])
    else
      file == Journal(hash, batches)
  }

  ghost predicate Issued(guards: map<nat, set<BlockId>>, tokens: nat)
  {
    forall t :: t in guards ==> t < tokens
  }

  /** A checked block has no writer and still has the generation checked. */
  ghost predicate Reserved(releaseChecks: set<BlockId>, checks: map<BlockId, nat>, active: map<BlockId, nat>,
                           ids: Generations)
  {
    && releaseChecks == checks.Keys
    && forall id :: id in checks ==> id !in active && id in ids && ids[id] == checks[id] > 0
  }

  lemma NobodyHolds()
    ensures Counts(map[], map[])
  {
    forall id: BlockId ensures Holders(map[], id) == {} {
    }
  }

  lemma OpensTo(hash: Hasher, found: Bytes, written: seq<seq<BlockId>>)
    requires GoodJournal(hash, written) && found <= Journal(hash, written)
    ensures var r, batches := Recover(hash, found), written[..WholeRecords(hash, written, |found|)];
            && r.Ok? && r.value.bytes <= |found| && Logged(hash, batches, r.value.ids, r.value.sequence, r.value.bytes)
            && OnDisk(hash, batches, [], found[..r.value.bytes], false)
  {
    hide Journal, Latest, WholeRecords, Recover, GoodJournal, Logged, OnDisk;
    var batches := written[..WholeRecords(hash, written, |found|)];
    RecoverAfterCut(hash, written, |found|);
    PrefixIsTake(found, Journal(hash, written));
    LoggedNow(hash, batches);
    OnDiskNow(hash, batches, found[..|Journal(hash, batches)|]);
  }

  lemma PrefixIsTake(a: Bytes, b: Bytes)
    requires a <= b
    ensures b[..|a|] == a
  {
  }

  lemma LoggedNow(hash: Hasher, batches: seq<seq<BlockId>>)
    requires GoodJournal(hash, batches)
    ensures Logged(hash, batches, Latest(batches), |batches|, |Journal(hash, batches)|)
  {
    hide GoodJournal, Latest, Journal;
  }

  lemma OnDiskNow(hash: Hasher, batches: seq<seq<BlockId>>, file: Bytes)
    requires file == Journal(hash, batches)
    ensures OnDisk(hash, batches, [], file, false)
  {
    hide GoodJournal, Journal;
  }

  /** One more batch within both capacities. */
  lemma AppendLogged(hash: Hasher, batches: seq<seq<BlockId>>, ids: Generations, sequence: nat, bytes: nat,
                     list: seq<BlockId>)
    requires Logged(hash, batches, ids, sequence, bytes) && GoodBatch(list) && sequence < U64_MAX
    requires |ids| + |(set id | id in list) - ids.Keys| <= MAX_IDS && bytes + RecordSize(|list|) <= MAX_BYTES
    ensures Logged(hash, batches + [list], Stamp(ids, list, sequence + 1), sequence + 1, bytes + RecordSize(|list|))
    ensures Journal(hash, batches + [list]) == Journal(hash, batches) + RecordOf(hash, sequence + 1, list)
  {
    hide RecordOf, Stamp;
    var more := batches + [list];
    assert more[..|batches|] == batches && more[..|more|] == more;
    JournalStep(hash, more, |batches|);
    StampSize(ids, list, sequence + 1);
  }

  lemma StampSize(ids: Generations, list: seq<BlockId>, sequence: nat)
    ensures |Stamp(ids, list, sequence)| == |ids| + |(set id | id in list) - ids.Keys|
  {
    var added := (set id | id in list) - ids.Keys;
    assert Stamp(ids, list, sequence).Keys == ids.Keys + added;
  }

  /** The record of a batch, field by field. */
  method BuildRecord(hash: Hasher, sequence: nat, list: seq<BlockId>) returns (record: Bytes)
    ensures record == RecordOf(hash, sequence, list)
  {
    record := MAGIC_2 + LE(|list|, 4) + Zeros(4) + LE(sequence, 8);
    record := record + hash(record).raw;
    ghost var header := record;
    for i := 0 to |list|
      invariant record == header + IdBytes(list[..i])
    {
      IdBytesPush(list[..i], list[i]);
      assert list[..i + 1] == list[..i] + [list[i]];
      record := record + list[i].raw;
    }
    assert list[..|list|] == list && record[HEADER..] == IdBytes(list);
    record := record + hash(record[HEADER..]).raw;
  }

  /** Why `Protect` turns a request down before any journal I/O. */
  function Refusal(count: nat, requested: set<BlockId>, failed: bool, releaseChecks: set<BlockId>,
                   ids: Generations, sequence: nat, bytes: nat): (why: Option<RetentionError>)
  {
    if count > MAX_BATCH then Some(BatchTooLarge)
    else if failed then Some(NeedsRestart)
    else if requested * releaseChecks != {} then Some(ReservedByCheck)
    else if requested == {} then None
    else if sequence == U64_MAX then Some(SequenceExhausted)
    else if |ids| + |requested - ids.Keys| > MAX_IDS || bytes + RecordSize(|requested|) > MAX_BYTES then
      Some(CapacityExhausted)
    else None
  }

  lemma LoggedIsGood(hash: Hasher, batches: seq<seq<BlockId>>, ids: Generations, sequence: nat, bytes: nat)
    requires Logged(hash, batches, ids, sequence, bytes)
    ensures GoodJournal(hash, batches) && sequence <= U64_MAX
  {
  }

  lemma NothingMoved(active: map<BlockId, nat>, guards: map<nat, set<BlockId>>)
    requires Counts(active, guards)
    ensures Moved(active, active, {}, 1) && forall id :: id in active ==> active[id] > 0
  {
    hide Holders;
  }

  /** Giving counts back never brings a counter into being. */
  lemma FewerCounters(before: map<BlockId, nat>, after: map<BlockId, nat>, ids: set<BlockId>)
    requires Moved(before, after, ids, -1)
    ensures after.Keys <= before.Keys
  {
    forall id | id in after ensures id in before {
      assert CountOf(after, id) <= CountOf(before, id);
    }
  }

  lemma RestartClean(hash: Hasher, batches: seq<seq<BlockId>>)
    requires GoodJournal(hash, batches)
    ensures Recover(hash, Journal(hash, batches)) == Ok(Recovered(Latest(batches), |batches|, |Journal(hash, batches)|))
  {
    hide Journal, Latest, GoodJournal, Recover;
    var all := |Journal(hash, batches)|;
    assert Journal(hash, batches)[..all] == Journal(hash, batches);
    RecoverAfterCut(hash, batches, all);
    WholeAtEnd(hash, batches);
    assert batches[..|batches|] == batches;
  }

  lemma WholeAtEnd(hash: Hasher, batches: seq<seq<BlockId>>)
    ensures WholeRecords(hash, batches, |Journal(hash, batches)|) == |batches|
  {
    hide Journal;
  }

  /** Some part of one more record in the file: it counts if it is whole. */
  lemma RestartFailed(hash: Hasher, batches: seq<seq<BlockId>>, pending: seq<BlockId>, file: Bytes)
    requires GoodJournal(hash, batches + [pending])
    requires Journal(hash, batches) <= file <= Journal(hash, batches + [pending])
    ensures var r := Recover(hash, file);
            && r.Ok? && |batches| <= r.value.sequence <= |batches| + 1
            && r.value.ids == if r.value.sequence == |batches| then Latest(batches)
                              else Stamp(Latest(batches), pending, |batches| + 1)
  {
    hide Journal, Latest, GoodJournal, Recover, WholeRecords, Stamp, RecordOf;
    var more, n := batches + [pending], |batches|;
    assert more[..n] == batches && more[..n + 1] == more && more[n] == pending;
    var k := WholeRecords(hash, more, |file|);
    if k < n { KeepsRoom(hash, more, k + 1, n); }
    JournalStep(hash, more, n);
    assert Journal(hash, more)[..|file|] == file;
    RecoverAfterCut(hash, more, |file|);
  }

  lemma Admitted(count: nat, requested: set<BlockId>, failed: bool, releaseChecks: set<BlockId>,
                 ids: Generations, sequence: nat, bytes: nat)
    requires Refusal(count, requested, failed, releaseChecks, ids, sequence, bytes).None?
    ensures count <= MAX_BATCH && !failed && requested * releaseChecks == {}
    ensures requested != {} ==>
              && sequence != U64_MAX && |ids| + |requested - ids.Keys| <= MAX_IDS
              && bytes + RecordSize(|requested|) <= MAX_BYTES
  {
  }

  /** The ids in `requested` at the new generation, the others as before. */
  ghost predicate Restamped(before: Generations, after: Generations, requested: set<BlockId>, sequence: nat)
  {
    && after.Keys == before.Keys + requested
    && forall id :: id in after ==> after[id] == if id in requested then sequence else before[id]
  }

  ghost predicate SameIds(batch: seq<BlockId>, request: seq<BlockId>)
  {
    forall id :: id in batch <==> id in request
  }

  /** One batch more, naming exactly the ids requested. */
  ghost predicate Appended(before: seq<seq<BlockId>>, after: seq<seq<BlockId>>, request: seq<BlockId>)
  {
    |after| == |before| + 1 && before <= after && SameIds(after[|before|], request)
  }

  lemma StampRestamps(ids: Generations, list: seq<BlockId>, requested: set<BlockId>, sequence: nat)
    requires forall id :: id in list <==> id in requested
    ensures Restamped(ids, Stamp(ids, list, sequence), requested, sequence)
  {
  }

  /** New writers stay clear of the blocks under a release check. */
  lemma ReservedKept(releaseChecks: set<BlockId>, checks: map<BlockId, nat>, active: map<BlockId, nat>,
                     after: map<BlockId, nat>, ids: Generations, later: Generations, requested: set<BlockId>,
                     sequence: nat)
    requires Reserved(releaseChecks, checks, active, ids) && requested * releaseChecks == {}
    requires Moved(active, after, requested, 1)
    requires if requested == {} then later == ids else Restamped(ids, later, requested, sequence)
    ensures Reserved(releaseChecks, checks, after, later)
  {
    forall id | id in checks ensures id !in after && id in later && later[id] == checks[id] {
      assert id !in requested * releaseChecks;
      assert CountOf(after, id) == CountOf(active, id);
    }
  }

  method Batch(request: seq<BlockId>, requested: set<BlockId>) returns (list: seq<BlockId>)
    requires requested == (set id | id in request) && requested != {} && |request| <= MAX_BATCH
    ensures GoodBatch(list) && |list| == |requested| && (set id | id in list) == requested
    ensures forall id :: id in list <==> id in requested
  {
    SetOfSeqSize(request);
    list := Enumerate(requested);
  }

  class Retention {
    const hash: Hasher
    var file: Bytes
    var ids: Generations
    var sequence: nat
    var bytes: nat
    var failed: bool
    var active: map<BlockId, nat>
    var releaseChecks: set<BlockId>
    var tokens: nat

    /** The batches acknowledged so far and, after a failed append, the batch
        that may have landed in part; the guards alive; and the generation each
        live release check was granted for. */
    ghost var batches: seq<seq<BlockId>>
    ghost var pending: seq<BlockId>
    ghost var guards: map<nat, set<BlockId>>
    ghost var checks: map<BlockId, nat>

    ghost predicate JournalOk()
      reads this`file, this`ids, this`sequence, this`bytes, this`failed, this`batches, this`pending
    {
      Logged(hash, batches, ids, sequence, bytes) && OnDisk(hash, batches, pending, file, failed)
    }

    ghost predicate GuardsOk()
      reads this
    {
      Counts(active, guards) && Issued(guards, tokens) && Reserved(releaseChecks, checks, active, ids)
    }

    ghost predicate Valid()
      reads this
    {
      JournalOk() && GuardsOk()
    }

    /** Open a journal some earlier process wrote and a crash may have cut. */
    constructor Open(hash: Hasher, found: Bytes, ghost written: seq<seq<BlockId>>)
      requires GoodJournal(hash, written) && found <= Journal(hash, written)
      ensures Valid() && !failed && active == map[] && releaseChecks == {} && guards == map[]
      ensures this.hash == hash && batches == written[..WholeRecords(hash, written, |found|)]
      ensures Recover(hash, found).Ok?
    {
      hide Logged, OnDisk, Recover, Journal, GoodJournal, WholeRecords, Holders;
      OpensTo(hash, found, written);
      var r := RecoverFile(hash, found);
      this.hash := hash;
      file, ids, sequence, bytes := found[..r.value.bytes], r.value.ids, r.value.sequence, r.value.bytes;
      failed, active, releaseChecks, tokens := false, map[], {}, 0;
      batches, pending := written[..WholeRecords(hash, written, |found|)], [];
      guards, checks := map[], map[];
      new;
      NobodyHolds();
    }

    /** A write guard and a release check never hold the same block. */
    lemma Exclusion(id: BlockId, t: nat)
      requires Valid() && id in releaseChecks && t in guards
      ensures id !in guards[t]
    {
      hide Holders, JournalOk;
      HeldIsCounted(active, guards, t);
    }

    method CountUp(requested: set<BlockId>)
      requires forall id :: id in active ==> active[id] > 0
      modifies this`active
      ensures Moved(old(active), active, requested, 1)
    {
      var rest := requested;
      while rest != {}
        invariant rest <= requested && Moved(old(active), active, requested - rest, 1)
        decreases rest
      {
        var id :| id in rest;
        active := active[id := CountOf(active, id) + 1];
        rest := rest - {id};
      }
      assert requested - rest == requested;
    }

    /** Give back one count per id; every id has its counter. */
    method CountDown(held: set<BlockId>)
      requires forall id :: id in active ==> active[id] > 0
      requires forall id :: id in held ==> id in active
      modifies this`active
      ensures Moved(old(active), active, held, -1)
    {
      var rest := held;
      while rest != {}
        invariant rest <= held && Moved(old(active), active, held - rest, -1)
        decreases rest
      {
        var id :| id in rest;
        assert CountOf(active, id) == CountOf(old(active), id);
        var count := active[id] - 1;
        active := if count == 0 then active - {id} else active[id := count];
        rest := rest - {id};
      }
      assert held - rest == held;
    }

    /** Append the record of a batch; a failed write or sync leaves any part of
        it in the file and refuses every later append until a restart. */
    method Append(list: seq<BlockId>, fault: Option<nat>) returns (ok: bool)
      requires JournalOk() && !failed && GoodBatch(list) && sequence < U64_MAX
      requires |ids| + |(set id | id in list) - ids.Keys| <= MAX_IDS && bytes + RecordSize(|list|) <= MAX_BYTES
      modifies this`file, this`failed, this`ids, this`sequence, this`bytes, this`batches, this`pending
      ensures JournalOk() && ok == fault.None? && failed == !ok
      ensures ok ==>
                && batches == old(batches) + [list] && ids == Stamp(old(ids), list, old(sequence) + 1)
                && sequence == old(sequence) + 1
      ensures !ok ==> ids == old(ids) && sequence == old(sequence) && bytes == old(bytes) && batches == old(batches)
    {
      hide Logged, RecordOf, Journal, GoodJournal, Stamp;
      var next, size := sequence + 1, RecordSize(|list|);
      var record := BuildRecord(hash, next, list);
      AppendLogged(hash, batches, ids, sequence, bytes, list);
      LoggedIsGood(hash, batches + [list], Stamp(ids, list, next), next, bytes + size);
      if fault.Some? {
        file := file + record[..if fault.value < |record| then fault.value else |record|];
        failed, pending := true, list;
        return false;
      }
      file := file + record;
      var stamped := StampAll(ids, list, next);
      sequence, bytes, ids := next, bytes + size, stamped;
      batches := batches + [list];
      ok := true;
    }

    /** The checks made before any journal I/O, in the order they are made. */
    method Refuse(request: seq<BlockId>, requested: set<BlockId>) returns (why: Option<RetentionError>)
      requires requested == set id | id in request
      ensures why == Refusal(|request|, requested, failed, releaseChecks, ids, sequence, bytes)
    {
      if |request| > MAX_BATCH {
        return Some(BatchTooLarge);
      }
      if failed {
        return Some(NeedsRestart);
      }
      if requested * releaseChecks != {} {
        return Some(ReservedByCheck);
      }
      if requested == {} {
        return None;
      }
      if sequence == U64_MAX {
        return Some(SequenceExhausted);
      }
      if |ids| + |requested - ids.Keys| > MAX_IDS || bytes + RecordSize(|requested|) > MAX_BYTES {
        return Some(CapacityExhausted);
      }
      return None;
    }

    /** Make the new generation of the requested ids durable. */
    method Record(request: seq<BlockId>, requested: set<BlockId>, fault: Option<nat>) returns (ok: bool)
      requires JournalOk() && !failed && requested == (set id | id in request) && requested != {}
      requires |request| <= MAX_BATCH && sequence != U64_MAX
      requires |ids| + |requested - ids.Keys| <= MAX_IDS && bytes + RecordSize(|requested|) <= MAX_BYTES
      modifies this`file, this`failed, this`ids, this`sequence, this`bytes, this`batches, this`pending
      ensures JournalOk() && ok == fault.None? && failed == !ok
      ensures ok ==>
                && sequence == old(sequence) + 1 && Restamped(old(ids), ids, requested, sequence)
                && Appended(old(batches), batches, request)
      ensures !ok ==> unchanged(`ids, `sequence, `bytes, `batches)
    {
      hide Logged, OnDisk, Restamped, Journal, GoodJournal, Stamp, RecordSize;
      var list := Batch(request, requested);
      LoggedIsGood(hash, batches, ids, sequence, bytes);
      ok := Append(list, fault);
      StampRestamps(old(ids), list, requested, old(sequence) + 1);
    }

    /** Count the writers and hand out the guard. */
    method Register(requested: set<BlockId>) returns (guard: WriteGuard)
      requires Counts(active, guards) && Issued(guards, tokens)
      modifies this`active, this`guards, this`tokens
      ensures Counts(active, guards) && Issued(guards, tokens) && Moved(old(active), active, requested, 1)
      ensures guard == WriteGuard(old(tokens), requested) && guards == old(guards)[old(tokens) := requested]
    {
      hide Counts, Moved;
      NothingMoved(active, guards);
      CountUp(requested);
      GuardAdded(old(active), active, guards, tokens, requested);
      guard := WriteGuard(tokens, requested);
      guards, tokens := guards[tokens := requested], tokens + 1;
    }

    /** The part after admission: durable first, counted after. */
    method Issue(request: seq<BlockId>, requested: set<BlockId>, fault: Option<nat>)
      returns (r: Result<WriteGuard, RetentionError>)
      requires Valid() && !failed && requested == (set id | id in request) && requested * releaseChecks == {}
      requires |request| <= MAX_BATCH
      requires requested != {} ==>
                 && sequence != U64_MAX && |ids| + |requested - ids.Keys| <= MAX_IDS
                 && bytes + RecordSize(|requested|) <= MAX_BYTES
      modifies this
      ensures Valid() && unchanged(`releaseChecks, `checks)
      ensures if requested != {} && fault.Some? then
                r == Err(WriteFailed) && failed && unchanged(`ids, `sequence, `batches, `active, `guards)
              else
                && r == Ok(WriteGuard(old(tokens), requested)) && !failed
                && guards == old(guards)[old(tokens) := requested]
                && if requested == {} then unchanged(`file, `ids, `sequence, `batches)
                   else
                     && sequence == old(sequence) + 1 && Restamped(old(ids), ids, requested, sequence)
                     && Appended(old(batches), batches, request)
    {
      hide JournalOk, Counts, Moved, Issued, Reserved, Restamped, Appended, RecordSize;
      if requested != {} {
        var ok := Record(request, requested, fault);
        if !ok {
          return Err(WriteFailed);
        }
      }
      var guard := Register(requested);
      ReservedKept(releaseChecks, checks, old(active), active, old(ids), ids, requested, sequence);
      return Ok(guard);
    }

    /** Take a write guard. */
    method Protect(request: seq<BlockId>, fault: Option<nat>) returns (r: Result<WriteGuard, RetentionError>)
      requires Valid()
      modifies this
      ensures Valid()
      ensures var requested := set id | id in request;
              var why := old(Refusal(|request|, requested, failed, releaseChecks, ids, sequence, bytes));
              if why.Some? then r == Err(why.value) && unchanged(this)
              else if requested == {} then
                && r == Ok(WriteGuard(old(tokens), {})) && guards == old(guards)[old(tokens) := {}]
                && unchanged(`file, `ids, `sequence, `batches, `failed, `releaseChecks, `checks)
              else if fault.Some? then
                && r == Err(WriteFailed) && failed
                && unchanged(`ids, `sequence, `batches, `active, `releaseChecks, `guards, `checks)
              else
                && r == Ok(WriteGuard(old(tokens), requested)) && !failed
                && guards == old(guards)[old(tokens) := requested] && unchanged(`releaseChecks, `checks)
                && sequence == old(sequence) + 1 && Restamped(old(ids), ids, requested, sequence)
                && Appended(old(batches), batches, request)
    {
      hide Valid, Restamped, Appended, Refusal, RecordSize;
      var requested := set id | id in request;
      var why := Refuse(request, requested);
      if why.Some? {
        return Err(why.value);
      }
      Admitted(|request|, requested, failed, releaseChecks, ids, sequence, bytes);
      r := Issue(request, requested, fault);
    }

    /** Reserve a block for a release check of one durable generation. */
    method TryReleaseCheck(id: BlockId, expected: nat) returns (r: Result<ReleaseCheck, RetentionError>)
      requires Valid()
      modifies this`releaseChecks, this`checks
      ensures Valid()
      ensures if failed then r == Err(NeedsRestart)
              else if expected == 0 || id !in ids || ids[id] != expected then r == Err(StaleGeneration)
              else if id in active || id in old(releaseChecks) then r == Err(Busy)
              else r == Ok(ReleaseCheck(id))
      ensures releaseChecks == old(releaseChecks) + if r.Ok? then {id} else {}
      ensures checks == if r.Ok? then old(checks)[id := expected] else old(checks)
    {
      hide Logged, OnDisk, Counts;
      if failed {
        return Err(NeedsRestart);
      }
      if expected == 0 || id !in ids || ids[id] != expected {
        return Err(StaleGeneration);
      }
      if id in active || id in releaseChecks {
        return Err(Busy);
      }
      releaseChecks := releaseChecks + {id};
      checks := checks[id := expected];
      return Ok(ReleaseCheck(id));
    }

    /** Drop a write guard: each of its counters is there and positive. */
    method DropGuard(guard: WriteGuard)
      requires Valid() && guard.token in guards && guards[guard.token] == guard.ids
      modifies this`active, this`guards
      ensures Valid() && guards == old(guards) - {guard.token}
    {
      hide Logged, OnDisk, Holders;
      HeldIsCounted(active, guards, guard.token);
      CountDown(guard.ids);
      GuardRemoved(old(active), active, guards, guard.token);
      guards := guards - {guard.token};
      FewerCounters(old(active), active, guard.ids);
    }

    method DropCheck(check: ReleaseCheck)
      requires Valid() && check.id in checks
      modifies this`releaseChecks, this`checks
      ensures Valid() && releaseChecks == old(releaseChecks) - {check.id} && checks == old(checks) - {check.id}
    {
      hide Logged, OnDisk, Counts;
      releaseChecks := releaseChecks - {check.id};
      checks := checks - {check.id};
    }

    /** Records are numbered from one without a gap. */
    lemma OneEach()
      requires Valid()
      ensures sequence == |batches| <= U64_MAX && ids == Latest(batches) && bytes == |Journal(hash, batches)|
    {
      hide Journal, Latest, GuardsOk;
    }

    lemma FileHoldsJournal()
      requires JournalOk()
      ensures bytes <= |file|
    {
      hide Journal, GoodJournal, Latest;
    }

    /** Every batch that may be in the file, in part or whole. */
    ghost function Written(): (w: seq<seq<BlockId>>)
      reads this
    {
      if failed then batches + [pending] else batches
    }

    /** What a crash may leave of the file: every synced byte, and any part of a
        record whose append failed. */
    lemma AfterCrash(found: Bytes)
      requires JournalOk() && found <= file && bytes <= |found|
      ensures GoodJournal(hash, Written()) && found <= Journal(hash, Written())
      ensures Written()[..|batches|] == batches && |Journal(hash, batches)| <= |found|
    {
      hide Journal, GoodJournal, Latest;
    }

    /** Restarting over whatever the file holds: an open never fails, every
        acknowledged batch comes back, and at most the one that failed is new. */
    lemma Restart()
      requires Valid()
      ensures var r := Recover(hash, file);
              && r.Ok? && r.value.sequence <= sequence + (if failed then 1 else 0)
              && r.value.ids == (if r.value.sequence == sequence then ids else Stamp(ids, pending, sequence + 1))
              && sequence <= r.value.sequence
    {
      hide Journal, Latest, GoodJournal, Recover, WholeRecords, Stamp, GuardsOk;
      if failed {
        RestartFailed(hash, batches, pending, file);
      } else {
        RestartClean(hash, batches);
      }
    }
  }

  // ---------------------------------------------------------------- whole runs

  datatype Call =
    | CallProtect(request: seq<BlockId>, fault: Option<nat>)
    | CallCheck(checked: BlockId, generation: nat)
    | CallDropGuard(token: nat)
    | CallDropCheck(dropped: BlockId)

  /** A granted request of at least one block is written down: it has a generation. */
  predicate Stamps(call: Call, granted: bool)
  {
    granted && call.CallProtect? && call.request != []
  }

  predicate Faulty(call: Call)
  {
    call.CallProtect? && call.fault.Some?
  }

  lemma NonEmptySet(request: seq<BlockId>, requested: set<BlockId>)
    requires requested == set id | id in request
    ensures request == [] <==> requested == {}
  {
    if request != [] {
      assert request[0] in requested;
    }
  }

  /** Nothing about the sizes refuses this request. */
  ghost predicate Fits(request: seq<BlockId>, ids: Generations, sequence: nat, bytes: nat)
  {
    Refusal(|request|, set id | id in request, false, {}, ids, sequence, bytes).None?
  }

  lemma OnlySizes(request: seq<BlockId>, requested: set<BlockId>, failed: bool, releaseChecks: set<BlockId>,
                  ids: Generations, sequence: nat, bytes: nat)
    requires requested == set id | id in request
    ensures Refusal(|request|, requested, failed, releaseChecks, ids, sequence, bytes).None? <==>
            && Fits(request, ids, sequence, bytes) && !failed
            && forall id :: id in request ==> id !in releaseChecks
  {
    assert requested * releaseChecks == {} <==> forall id :: id in request ==> id !in releaseChecks by {
      if id :| id in requested * releaseChecks { assert id in request && id in releaseChecks; }
      if id :| id in request && id in releaseChecks { assert id in requested * releaseChecks; }
    }
  }

  /** One call of some thread holding the lock. `held` are the guards handed out
      and not dropped yet: only those can be dropped. */
  method Perform(r: Retention, held: map<nat, set<BlockId>>, call: Call)
    returns (granted: bool, after: map<nat, set<BlockId>>)
    requires r.Valid() && held == r.guards
    modifies r
    ensures r.Valid() && after == r.guards && (r.failed ==> old(r.failed) || Faulty(call))
    ensures forall id :: id in old(r.checks) && call != CallDropCheck(id) ==>
              && id in r.checks && r.checks[id] == old(r.checks)[id]
              && (call.CallProtect? && id in call.request ==> !granted)
    ensures if Stamps(call, granted) then
              r.sequence == old(r.sequence) + 1 && Appended(old(r.batches), r.batches, call.request)
            else
              r.sequence == old(r.sequence) && r.batches == old(r.batches) && r.ids == old(r.ids)
    ensures call.CallProtect? && call.fault.None? && !old(r.failed) ==>
              (granted <==> old(Fits(call.request, r.ids, r.sequence, r.bytes))
                            && forall id :: id in call.request ==> id !in old(r.releaseChecks))
    ensures forall id :: id in r.releaseChecks ==> id in old(r.releaseChecks) || (call.CallCheck? && call.checked == id)
  {
    hide Retention.JournalOk, Counts, Issued, Restamped, Appended, Refusal;
    granted, after := false, held;
    match call {
      case CallProtect(request, fault) =>
        var g := r.Protect(request, fault);
        if g.Ok? {
          granted, after := true, held[g.value.token := g.value.ids];
        }
        NonEmptySet(request, set id | id in request);
        OnlySizes(request, set id | id in request, old(r.failed), old(r.releaseChecks), old(r.ids), old(r.sequence),
                  old(r.bytes));
      case CallCheck(checked, generation) =>
        var c := r.TryReleaseCheck(checked, generation);
        granted := c.Ok?;
      case CallDropGuard(token) =>
        if token in held {
          r.DropGuard(WriteGuard(token, held[token]));
          after := held - {token};
        }
      case CallDropCheck(dropped) =>
        if dropped in r.releaseChecks {
          r.DropCheck(ReleaseCheck(dropped));
        }
    }
  }

  /** Any interleaving of calls: while the check of a block is held, its
      generation stays the one checked and no writer of it is let in. */
  method Interleave(r: Retention, alive: map<nat, set<BlockId>>, calls: seq<Call>, watched: BlockId)
    returns (granted: seq<bool>)
    requires r.Valid() && alive == r.guards && watched in r.checks && CallDropCheck(watched) !in calls
    modifies r
    ensures r.Valid() && |granted| == |calls|
    ensures watched in r.releaseChecks && watched in r.ids && r.ids[watched] == old(r.checks)[watched]
    ensures forall i :: 0 <= i < |calls| && calls[i].CallProtect? && watched in calls[i].request ==> !granted[i]
  {
    hide Retention.JournalOk, Counts, Issued;
    granted := [];
    var held := alive;
    for n := 0 to |calls|
      invariant r.Valid() && held == r.guards && |granted| == n
      invariant watched in r.checks && r.checks[watched] == old(r.checks)[watched]
      invariant forall i :: 0 <= i < n && calls[i].CallProtect? && watched in calls[i].request ==> !granted[i]
    {
      var ok: bool;
      ok, held := Perform(r, held, calls[n]);
      granted := granted + [ok];
    }
  }

  // ------------------------------------------------------------- across restarts

  predicate AnyFaulty(calls: seq<Call>)
  {
    exists k :: 0 <= k < |calls| && Faulty(calls[k])
  }

  /** What a call was granted: the generation its ids were written down with, or
      none when it was refused, failed, or had nothing to write down. */
  type Grant = Option<nat>

  /** The batch of that generation names exactly the ids of the request. */
  ghost predicate Recorded(call: Call, grant: Grant, batches: seq<seq<BlockId>>)
  {
    grant.Some? ==>
      && call.CallProtect? && call.request != [] && 1 <= grant.value <= |batches|
      && SameIds(batches[grant.value - 1], call.request)
  }

  ghost predicate AllRecorded(calls: seq<Call>, grants: seq<Grant>, batches: seq<seq<BlockId>>)
  {
    |grants| <= |calls| && forall k :: 0 <= k < |grants| ==> Recorded(calls[k], grants[k], batches)
  }

  lemma RecordedGrows(calls: seq<Call>, grants: seq<Grant>, batches: seq<seq<BlockId>>, more: seq<seq<BlockId>>)
    requires AllRecorded(calls, grants, batches) && batches <= more
    ensures AllRecorded(calls, grants, more)
  {
    forall k | 0 <= k < |grants| ensures Recorded(calls[k], grants[k], more) {
      assert Recorded(calls[k], grants[k], batches);
      if grants[k].Some? {
        assert batches[grants[k].value - 1] == more[grants[k].value - 1];
      }
    }
  }

  lemma NothingRecorded(calls: seq<Call>, batches: seq<seq<BlockId>>)
    ensures AllRecorded(calls, [], batches)
  {
  }

  lemma RecordedNext(calls: seq<Call>, grants: seq<Grant>, grant: Grant, batches: seq<seq<BlockId>>)
    requires AllRecorded(calls, grants, batches) && |grants| < |calls|
    requires Recorded(calls[|grants|], grant, batches)
    ensures AllRecorded(calls, grants + [grant], batches)
  {
    hide Recorded;
  }

  ghost predicate Room(hash: Hasher, batches: seq<seq<BlockId>>, request: seq<BlockId>)
  {
    Fits(request, Latest(batches), |batches|, |Journal(hash, batches)|)
  }

  /** What fits later fits before. */
  lemma RoomBefore(hash: Hasher, batches: seq<seq<BlockId>>, more: seq<seq<BlockId>>, request: seq<BlockId>)
    requires batches <= more && |more| <= U64_MAX && Room(hash, more, request)
    ensures Room(hash, batches, request)
  {
    hide Journal, Latest;
    assert more[..|batches|] == batches && more[..|more|] == more;
    KeepsRoom(hash, more, |batches|, |more|);
    forall id | id in Latest(batches) ensures id in Latest(more) {
      LatestIsLargest(batches, id);
      LatestIsLargest(more, id);
      var k :| 0 <= k < |batches| && id in batches[k];
      assert more[k] == batches[k];
    }
    UnionSize(Latest(batches), Latest(more), set id | id in request);
  }

  lemma UnionSize(ids: Generations, more: Generations, requested: set<BlockId>)
    requires ids.Keys <= more.Keys
    ensures |ids| + |requested - ids.Keys| <= |more| + |requested - more.Keys|
  {
    assert ids.Keys + (requested - ids.Keys) <= more.Keys + (requested - more.Keys);
    SubsetSize(ids.Keys + (requested - ids.Keys), more.Keys + (requested - more.Keys));
    assert |ids.Keys + (requested - ids.Keys)| == |ids.Keys| + |requested - ids.Keys|;
    assert |more.Keys + (requested - more.Keys)| == |more.Keys| + |requested - more.Keys|;
  }

  lemma SubsetSize(a: set<BlockId>, b: set<BlockId>)
    requires a <= b
    ensures |a| <= |b|
  {
    assert b == a + (b - a);
  }

  ghost predicate CheckedBefore(calls: seq<Call>, k: nat, id: BlockId)
  {
    exists j :: 0 <= j < k && j < |calls| && calls[j].CallCheck? && calls[j].checked == id
  }

  /** A request whose process has met no failing append, that names no block some
      check before it may hold, and whose own append does not fail. */
  ghost predicate Unhindered(calls: seq<Call>, k: nat)
    requires k < |calls| && calls[k].CallProtect?
  {
    && calls[k].request != []
    && (forall j :: 0 <= j <= k ==> !Faulty(calls[j]))
    && forall id :: id in calls[k].request ==> !CheckedBefore(calls, k, id)
  }

  /** An unhindered request is granted as long as there is room. */
  ghost predicate AllGranted(hash: Hasher, calls: seq<Call>, grants: seq<Grant>, batches: seq<seq<BlockId>>)
  {
    |grants| <= |calls| && forall k :: 0 <= k < |grants| ==>
      (calls[k].CallProtect? && Unhindered(calls, k) && Room(hash, batches, calls[k].request) ==> grants[k].Some?)
  }

  lemma GrantedGrows(hash: Hasher, calls: seq<Call>, grants: seq<Grant>, batches: seq<seq<BlockId>>,
                     more: seq<seq<BlockId>>)
    requires AllGranted(hash, calls, grants, batches) && batches <= more && |more| <= U64_MAX
    ensures AllGranted(hash, calls, grants, more)
  {
    hide Unhindered, Room;
    forall k | 0 <= k < |grants| && calls[k].CallProtect? && Room(hash, more, calls[k].request)
      ensures Room(hash, batches, calls[k].request)
    {
      RoomBefore(hash, batches, more, calls[k].request);
    }
  }

  lemma GrantedNext(hash: Hasher, calls: seq<Call>, grants: seq<Grant>, grant: Grant, batches: seq<seq<BlockId>>,
                    more: seq<seq<BlockId>>)
    requires AllGranted(hash, calls, grants, batches) && batches <= more && |more| <= U64_MAX && |grants| < |calls|
    requires calls[|grants|].CallProtect? && Unhindered(calls, |grants|) && Room(hash, batches, calls[|grants|].request)
             ==> grant.Some?
    ensures AllGranted(hash, calls, grants + [grant], more)
  {
    hide Unhindered, Room;
    GrantedGrows(hash, calls, grants, batches, more);
    var call := calls[|grants|];
    if call.CallProtect? && Room(hash, more, call.request) { RoomBefore(hash, batches, more, call.request); }
  }

  /** Generations strictly rise, all above `low`, none past `high`. */
  ghost predicate Rising(grants: seq<Grant>, low: nat, high: nat)
  {
    && (forall i :: 0 <= i < |grants| && grants[i].Some? ==> low < grants[i].value <= high)
    && forall i, j :: 0 <= i < j < |grants| && grants[i].Some? && grants[j].Some? ==> grants[i].value < grants[j].value
  }

  /** How many calls were granted a generation. */
  function Granted(grants: seq<Grant>): (n: nat)
  {
    if grants == [] then 0
    else Granted(grants[..|grants| - 1]) + if grants[|grants| - 1].Some? then 1 else 0
  }

  /** The calls of one process; a failing append may be the last thing it does. */
  method RunSession(r: Retention, calls: seq<Call>) returns (grants: seq<Grant>)
    requires r.Valid() && r.guards == map[] && !r.failed && r.releaseChecks == {}
    modifies r
    ensures r.Valid() && |grants| == |calls| && AllRecorded(calls, grants, r.batches)
    ensures old(r.batches) <= r.batches && Rising(grants, old(r.sequence), r.sequence)
    ensures r.sequence == old(r.sequence) + Granted(grants)
    ensures r.failed ==> AnyFaulty(calls)
    ensures AllGranted(r.hash, calls, grants, r.batches)
  {
    hide Retention.Valid, AllRecorded, AllGranted, Fits, CheckedBefore, Latest, Journal;
    grants := [];
    NothingRefused(r.hash, calls, r.batches);
    r.OneEach();
    NothingRecorded(calls, r.batches);
    var held: map<nat, set<BlockId>> := map[];
    for n := 0 to |calls|
      invariant r.Valid() && held == r.guards && |grants| == n && AllRecorded(calls, grants, r.batches)
      invariant old(r.batches) <= r.batches && Rising(grants, old(r.sequence), r.sequence)
      invariant r.sequence == old(r.sequence) + Granted(grants)
      invariant r.failed ==> exists k :: 0 <= k < n && Faulty(calls[k])
      invariant AllGranted(r.hash, calls, grants, r.batches)
      invariant forall id :: id in r.releaseChecks ==> CheckedBefore(calls, n, id)
    {
      ghost var batches, checks := r.batches, r.releaseChecks;
      r.OneEach();
      var ok;
      ok, held := Perform(r, held, calls[n]);
      var grant := if Stamps(calls[n], ok) then Some(r.sequence) else None;
      RecordedGrows(calls, grants, batches, r.batches);
      r.OneEach();
      RecordedNext(calls, grants, grant, r.batches);
      GrantedNext(r.hash, calls, grants, grant, batches, r.batches);
      CheckedNext(calls, n, checks, r.releaseChecks);
      assert (grants + [grant])[..n] == grants;
      grants := grants + [grant];
    }
  }

  /** One process after another over the same file, each ended by a crash that
      keeps what was synced and `cut` decides how much of anything else. */
  datatype Session = Session(calls: seq<Call>, cut: nat)

  /** Sessions some append of which fails: each may leave one whole record that
      nobody was told of. */
  function FaultySessions(sessions: seq<Session>): (n: nat)
  {
    if sessions == [] then 0
    else FaultySessions(sessions[..|sessions| - 1]) + if AnyFaulty(sessions[|sessions| - 1].calls) then 1 else 0
  }

  function GrantedInAll(grants: seq<seq<Grant>>): (n: nat)
  {
    if grants == [] then 0
    else GrantedInAll(grants[..|grants| - 1]) + Granted(grants[|grants| - 1])
  }

  lemma CountsNext(sessions: seq<Session>, grants: seq<seq<Grant>>, next: seq<Grant>)
    requires |grants| < |sessions|
    ensures GrantedInAll(grants + [next]) == GrantedInAll(grants) + Granted(next)
    ensures FaultySessions(sessions[..|grants| + 1]) ==
            FaultySessions(sessions[..|grants|]) + if AnyFaulty(sessions[|grants|].calls) then 1 else 0
  {
    hide AnyFaulty, Granted;
    var n := |grants|;
    assert (grants + [next])[..n] == grants && sessions[..n + 1][..n] == sessions[..n];
  }

  /** Over all sessions a later grant has the larger generation. */
  ghost predicate Ordered(grants: seq<seq<Grant>>)
  {
    forall m, n, i, j ::
      && 0 <= m < |grants| && 0 <= n < |grants| && 0 <= i < |grants[m]| && 0 <= j < |grants[n]|
      && (m < n || (m == n && i < j)) && grants[m][i].Some? && grants[n][j].Some?
      ==> grants[m][i].value < grants[n][j].value
  }

  ghost predicate UpTo(grants: seq<seq<Grant>>, high: nat)
  {
    forall m, i :: 0 <= m < |grants| && 0 <= i < |grants[m]| && grants[m][i].Some? ==> grants[m][i].value <= high
  }

  lemma OrderedNext(grants: seq<seq<Grant>>, next: seq<Grant>, low: nat, high: nat, top: nat)
    requires Ordered(grants) && UpTo(grants, low) && Rising(next, low, high) && low <= high <= top
    ensures Ordered(grants + [next]) && UpTo(grants + [next], top)
  {
  }

  /** Every id of a granted request has at least the generation it was granted. */
  ghost predicate Kept(calls: seq<Call>, grants: seq<Grant>, ids: Generations)
  {
    |grants| <= |calls| && forall k, id ::
      0 <= k < |grants| && grants[k].Some? && calls[k].CallProtect? && id in calls[k].request
      ==> id in ids && grants[k].value <= ids[id]
  }

  lemma RecordedIsKept(calls: seq<Call>, grants: seq<Grant>, batches: seq<seq<BlockId>>)
    requires AllRecorded(calls, grants, batches)
    ensures Kept(calls, grants, Latest(batches))
  {
    hide Latest;
    forall k, id | 0 <= k < |grants| && grants[k].Some? && calls[k].CallProtect? && id in calls[k].request
      ensures id in Latest(batches) && grants[k].value <= Latest(batches)[id]
    {
      assert Recorded(calls[k], grants[k], batches);
      assert id in batches[grants[k].value - 1];
      LatestIsLargest(batches, id);
    }
  }

  ghost predicate EachRecorded(sessions: seq<Session>, grants: seq<seq<Grant>>, batches: seq<seq<BlockId>>)
  {
    |grants| <= |sessions| && forall n :: 0 <= n < |grants| ==> AllRecorded(sessions[n].calls, grants[n], batches)
  }

  ghost predicate EachGranted(hash: Hasher, sessions: seq<Session>, grants: seq<seq<Grant>>, batches: seq<seq<BlockId>>)
  {
    |grants| <= |sessions| &&
    forall n :: 0 <= n < |grants| ==> AllGranted(hash, sessions[n].calls, grants[n], batches)
  }

  lemma EachGrantedNext(hash: Hasher, sessions: seq<Session>, grants: seq<seq<Grant>>, next: seq<Grant>,
                        batches: seq<seq<BlockId>>, more: seq<seq<BlockId>>)
    requires EachGranted(hash, sessions, grants, batches) && batches <= more && |more| <= U64_MAX
    requires |grants| < |sessions| && AllGranted(hash, sessions[|grants|].calls, next, more)
    ensures EachGranted(hash, sessions, grants + [next], more)
  {
    hide AllGranted;
    forall n | 0 <= n < |grants| ensures AllGranted(hash, sessions[n].calls, grants[n], more) {
      GrantedGrows(hash, sessions[n].calls, grants[n], batches, more);
    }
  }

  lemma EachRecordedNext(sessions: seq<Session>, grants: seq<seq<Grant>>, next: seq<Grant>, batches: seq<seq<BlockId>>,
                         more: seq<seq<BlockId>>)
    requires EachRecorded(sessions, grants, batches) && batches <= more && |grants| < |sessions|
    requires AllRecorded(sessions[|grants|].calls, next, more)
    ensures EachRecorded(sessions, grants + [next], more)
  {
    hide AllRecorded;
    forall n | 0 <= n < |grants| ensures AllRecorded(sessions[n].calls, grants[n], more) {
      RecordedGrows(sessions[n].calls, grants[n], batches, more);
    }
  }

  lemma EachIsKept(sessions: seq<Session>, grants: seq<seq<Grant>>, batches: seq<seq<BlockId>>)
    requires EachRecorded(sessions, grants, batches)
    ensures forall n :: 0 <= n < |grants| ==> Kept(sessions[n].calls, grants[n], Latest(batches))
  {
    hide AllRecorded, Kept, Latest;
    forall n | 0 <= n < |grants| ensures Kept(sessions[n].calls, grants[n], Latest(batches)) {
      RecordedIsKept(sessions[n].calls, grants[n], batches);
    }
  }

  /** However many processes come and crash: every open succeeds, the generations
      granted strictly rise over all calls of all of them, each is the number of
      the record that names the ids of its request, and at the end every id still
      has at least the generation it was granted. A request nothing stands in the
      way of is granted, as long as there is room even at the end. Nothing else is numbered but
      the last record of a session whose append failed. */
  method RunSessions(hash: Hasher, sessions: seq<Session>) returns (r: Retention, grants: seq<seq<Grant>>)
    ensures fresh(r) && r.Valid() && r.hash == hash && |grants| == |sessions|
    ensures Ordered(grants) && UpTo(grants, r.sequence)
    ensures forall n :: 0 <= n < |sessions| ==>
              |grants[n]| == |sessions[n].calls| && Kept(sessions[n].calls, grants[n], r.ids)
    ensures EachRecorded(sessions, grants, r.batches) && EachGranted(hash, sessions, grants, r.batches)
    ensures GrantedInAll(grants) <= r.sequence <= GrantedInAll(grants) + FaultySessions(sessions)
  {
    hide Retention.Valid, EachRecorded, EachGranted, AllRecorded, AllGranted, Ordered, UpTo, Rising, Kept, AnyFaulty,
         Latest, Journal, GoodJournal, WholeRecords, Recover, Granted;
    NothingWritten(hash);
    r := new Retention.Open(hash, [], []);
    grants := [];
    NothingGranted(hash, sessions, r.batches, r.sequence);
    r.OneEach();
    for n := 0 to |sessions|
      invariant fresh(r) && r.Valid() && r.hash == hash && r.guards == map[] && !r.failed && |grants| == n
      invariant r.releaseChecks == {} && EachGranted(hash, sessions, grants, r.batches)
      invariant Ordered(grants) && UpTo(grants, r.sequence)
      invariant EachRecorded(sessions, grants, r.batches)
      invariant forall m :: 0 <= m < n ==> |grants[m]| == |sessions[m].calls|
      invariant GrantedInAll(grants) <= r.sequence <= GrantedInAll(grants) + FaultySessions(sessions[..n])
    {
      ghost var low, before := r.sequence, r.batches;
      var next := RunSession(r, sessions[n].calls);
      var later := Reopen(r, sessions[n].cut);
      OrderedNext(grants, next, low, r.sequence, later.sequence);
      RecordedGrows(sessions[n].calls, next, r.batches, later.batches);
      EachRecordedNext(sessions, grants, next, before, later.batches);
      later.OneEach();
      GrantedGrows(hash, sessions[n].calls, next, r.batches, later.batches);
      EachGrantedNext(hash, sessions, grants, next, before, later.batches);
      CountsNext(sessions, grants, next);
      grants := grants + [next];
      r := later;
    }
    r.OneEach();
    EachIsKept(sessions, grants, r.batches);
    assert sessions[..|sessions|] == sessions;
  }

  /** Open again over what a crash left: every record anyone was told of is back,
      and at most one more, of an append that failed. */
  method Reopen(r: Retention, cut: nat) returns (next: Retention)
    requires r.Valid()
    ensures fresh(next) && next.Valid() && next.hash == r.hash && next.guards == map[] && !next.failed
    ensures next.releaseChecks == {}
    ensures r.batches <= next.batches
    ensures r.sequence <= next.sequence <= r.sequence + if r.failed then 1 else 0
  {
    hide Counts, Issued, Reserved, Journal, Latest, GoodJournal, WholeRecords;
    var keep := if cut < r.bytes then r.bytes else if cut < |r.file| then cut else |r.file|;
    r.FileHoldsJournal();
    var found := r.file[..keep];
    r.AfterCrash(found);
    ghost var written := r.Written();
    next := new Retention.Open(r.hash, found, written);
    SyncedSurvives(r.hash, written, |found|, |r.batches|);
  }

  lemma SyncedSurvives(hash: Hasher, written: seq<seq<BlockId>>, cut: nat, n: nat)
    requires n <= |written| && |Journal(hash, written[..n])| <= cut
    ensures written[..n] <= written[..WholeRecords(hash, written, cut)]
  {
    hide Journal, WholeRecords;
    var k := WholeRecords(hash, written, cut);
    if k < n { KeepsRoom(hash, written, k + 1, n); }
  }

  lemma NothingRefused(hash: Hasher, calls: seq<Call>, batches: seq<seq<BlockId>>)
    ensures AllGranted(hash, calls, [], batches)
  {
  }

  lemma CheckedNext(calls: seq<Call>, n: nat, before: set<BlockId>, after: set<BlockId>)
    requires n < |calls| && forall id :: id in before ==> CheckedBefore(calls, n, id)
    requires forall id :: id in after ==> id in before || (calls[n].CallCheck? && calls[n].checked == id)
    ensures forall id :: id in after ==> CheckedBefore(calls, n + 1, id)
  {
    forall id | id in after ensures CheckedBefore(calls, n + 1, id) {
      if id in before { assert CheckedBefore(calls, n, id); }
    }
  }

  lemma NothingWritten(hash: Hasher)
    ensures GoodJournal(hash, []) && [] <= Journal(hash, [])
  {
  }

  lemma NothingGranted(hash: Hasher, sessions: seq<Session>, batches: seq<seq<BlockId>>, top: nat)
    ensures Ordered([]) && UpTo([], top) && EachRecorded(sessions, [], batches)
    ensures EachGranted(hash, sessions, [], batches)
  {
  }
}
