/** The offline sweep over segment files: every record checked, damage skipped
    page by page, and a checkpoint after every step that a later run resumes. */
module Scrub {
  import opened Core
  import opened Encoding
  import opened Segment

  const CHUNK: nat := 64 * 1024
  /** The largest file whose aligned offsets can all be stepped over in 64 bits;
      no file comes near it, as positioned reads take signed 64-bit offsets. */
  const MAX_FILE: nat := U64_MAX - BLOCK_ALIGN + 1

  datatype Kind = TruncatedHeader | InvalidHeader | InvalidReserved | LengthOverflow | BadLength | HashMismatch

  /** What looking at one offset finds, where to look next, and the bytes read. */
  datatype Look = Look(next: nat, bad: Option<Kind>, block: Option<BlockId>, read: nat)

  function SatAdd(a: nat, b: nat): (n: U64)
  {
    if a + b <= U64_MAX then a + b else U64_MAX
  }

  function PastRecord(offset: nat, payloadLen: nat): (next: nat)
    ensures next == offset + RecordLen(payloadLen) && next >= offset + BLOCK_ALIGN
    ensures offset % BLOCK_ALIGN == 0 ==> next % BLOCK_ALIGN == 0
  {
    offset + RecordLen(payloadLen)
  }

  function Examine(hash: Hasher, file: Bytes, offset: nat): (look: Look)
    requires offset < |file| <= U64_MAX
    ensures offset < look.next && (look.bad.None? ==> look.next <= |file| && offset + BLOCK_ALIGN <= look.next)
    ensures look.bad.Some? ==> look.next == SatAdd(offset, BLOCK_ALIGN)
    ensures look.bad.None? && offset % BLOCK_ALIGN == 0 ==> look.next % BLOCK_ALIGN == 0
  {
    var skip := SatAdd(offset, BLOCK_ALIGN);
    if |file| - offset < HEADER_LEN then Look(skip, Some(TruncatedHeader), None, |file| - offset)
    else
      var header := file[offset..offset + HEADER_LEN];
      match ParseHeader(header)
      case None => Look(skip, Some(InvalidHeader), None, HEADER_LEN)
      case Some(h) =>
        if header[48..64] != Zeros(16) then Look(skip, Some(InvalidReserved), Some(h.id), HEADER_LEN)
        else if h.payloadLen + HEADER_LEN + BLOCK_ALIGN - 1 > U64_MAX then
          Look(skip, Some(LengthOverflow), Some(h.id), HEADER_LEN)
        else if RecordLen(h.payloadLen) > |file| - offset then Look(skip, Some(BadLength), Some(h.id), HEADER_LEN)
        else
          var payload := file[offset + HEADER_LEN..offset + HEADER_LEN + h.payloadLen];
          var good := hash(payload) == h.id;
          var next := if good then PastRecord(offset, h.payloadLen) else skip;
          Look(next, if good then None else Some(HashMismatch), Some(h.id), HEADER_LEN + h.payloadLen)
  }

  /** The bytes an encoder writes for `r`, up to its padding, stand whole at `offset`. */
  ghost predicate StandsAt(file: Bytes, offset: nat, r: Rec)
  {
    && offset + RecordLen(|r.payload|) <= |file|
    && file[offset..offset + HEADER_LEN] == Header(r.id, |r.payload|)
    && file[offset + HEADER_LEN..offset + HEADER_LEN + |r.payload|] == r.payload
  }

  lemma HeaderExact(h: Bytes, id: BlockId, payloadLen: U64)
    requires |h| == HEADER_LEN
    ensures ParseHeader(h) == Some(RecordHeader(id, payloadLen)) && h[48..64] == Zeros(16) <==>
            h == Header(id, payloadLen)
  {
    ParseHeaderExact(h, id, payloadLen);
    var e := Header(id, payloadLen);
    assert e[48..64] == Zeros(16);
    assert h == h[..48] + h[48..64] && e == e[..48] + e[48..64];
  }

  lemma NoOverflow(payloadLen: nat)
    requires RecordLen(payloadLen) <= U64_MAX
    ensures payloadLen + HEADER_LEN + BLOCK_ALIGN - 1 <= U64_MAX
  {
  }

  /** A record that stands there with its own hash is verified. */
  lemma StandingVerifies(hash: Hasher, file: Bytes, offset: nat, r: Rec)
    requires offset < |file| <= U64_MAX && StandsAt(file, offset, r) && hash(r.payload) == r.id
    ensures Examine(hash, file, offset)
         == Look(offset + RecordLen(|r.payload|), None, Some(r.id), HEADER_LEN + |r.payload|)
  {
    hide ParseHeader, Header;
    NoOverflow(|r.payload|);
    HeaderExact(file[offset..offset + HEADER_LEN], r.id, |r.payload|);
  }

  /** An offset verifies exactly when some record stands there whole and its
      payload hashes to its id. */
  lemma VerifiedIff(hash: Hasher, file: Bytes, offset: nat)
    requires offset < |file| <= U64_MAX
    ensures Examine(hash, file, offset).bad.None? <==> exists r :: StandsAt(file, offset, r) && hash(r.payload) == r.id
  {
    hide ParseHeader, Header;
    if Examine(hash, file, offset).bad.None? {
      var header := file[offset..offset + HEADER_LEN];
      var h := ParseHeader(header).value;
      HeaderExact(header, h.id, h.payloadLen);
      var r := Rec(h.id, file[offset + HEADER_LEN..offset + HEADER_LEN + h.payloadLen]);
      assert StandsAt(file, offset, r);
    }
    if r :| StandsAt(file, offset, r) && hash(r.payload) == r.id {
      StandingVerifies(hash, file, offset, r);
    }
  }

  /** What each kind of finding means, for a header that is there whole. */
  lemma FindingMeans(hash: Hasher, file: Bytes, offset: nat, id: BlockId, len: U64)
    requires offset + HEADER_LEN <= |file| <= U64_MAX
    ensures var header, look := file[offset..offset + HEADER_LEN], Examine(hash, file, offset);
            && (header == Header(id, len) ==>
                  && look.block == Some(id)
                  && (if len + HEADER_LEN + BLOCK_ALIGN - 1 > U64_MAX then look.bad == Some(LengthOverflow)
                      else if offset + RecordLen(len) > |file| then look.bad == Some(BadLength)
                      else look.bad == if hash(file[offset + HEADER_LEN..offset + HEADER_LEN + len]) == id then None
                                       else Some(HashMismatch)))
            && (header[..48] == Header(id, len)[..48] && header != Header(id, len) ==>
                  look.block == Some(id) && look.bad == Some(InvalidReserved))
            && (look.bad == Some(InvalidHeader) ==> header[..48] != Header(id, len)[..48])
  {
    hide ParseHeader, Header;
    var header := file[offset..offset + HEADER_LEN];
    HeaderExact(header, id, len);
    ParseHeaderExact(header, id, len);
  }

  // --------------------------------------------------------- what a sweep visits

  /** The offsets a sweep of one file looks at. */
  function Visits(hash: Hasher, file: Bytes, offset: nat): (v: seq<nat>)
    requires |file| <= U64_MAX
    decreases |file| - offset
  {
    if offset >= |file| then [] else [offset] + Visits(hash, file, Examine(hash, file, offset).next)
  }

  /** Every aligned offset is looked at or lies strictly inside a verified record. */
  ghost predicate Covered(hash: Hasher, file: Bytes, visits: seq<nat>, x: nat)
    requires |file| <= U64_MAX
  {
    || x in visits
    || exists v :: v in visits && v < |file| && Examine(hash, file, v).bad.None? && v < x < Examine(hash, file, v).next
  }

  lemma {:induction false} VisitsCover(hash: Hasher, file: Bytes, offset: nat, x: nat)
    requires |file| <= U64_MAX && offset % BLOCK_ALIGN == 0 && x % BLOCK_ALIGN == 0 && offset <= x < |file|
    ensures Covered(hash, file, Visits(hash, file, offset), x)
    decreases |file| - offset
  {
    hide Examine;
    var visits, look := Visits(hash, file, offset), Examine(hash, file, offset);
    assert visits == [offset] + Visits(hash, file, look.next);
    assert offset in visits;
    if offset < x && (look.bad.Some? || look.next <= x) {
      NextPage(offset, x);
      VisitsCover(hash, file, look.next, x);
      assert forall v :: v in Visits(hash, file, look.next) ==> v in visits;
    }
  }

  lemma NextPage(offset: nat, x: nat)
    requires offset % BLOCK_ALIGN == 0 && x % BLOCK_ALIGN == 0 && offset < x <= U64_MAX
    ensures SatAdd(offset, BLOCK_ALIGN) == offset + BLOCK_ALIGN <= x
  {
  }

  // ------------------------------------------------------------------- totals

  datatype Tally = Tally(verified: nat, findings: nat, read: nat)

  function Plus(a: Tally, b: Tally): (t: Tally)
  {
    Tally(a.verified + b.verified, a.findings + b.findings, a.read + b.read)
  }

  function Single(look: Look): (t: Tally)
  {
    if look.bad.None? then Tally(1, 0, look.read) else Tally(0, 1, look.read)
  }

  /** The plain totals of one file from an offset on. */
  function FileTally(hash: Hasher, file: Bytes, offset: nat): (t: Tally)
    requires |file| <= U64_MAX
    decreases |file| - offset
  {
    if offset >= |file| then Tally(0, 0, 0)
    else
      var look := Examine(hash, file, offset);
      Plus(Single(look), FileTally(hash, file, look.next))
  }

  /** Every visit is either verified or a finding. */
  lemma {:induction false} TallyVisits(hash: Hasher, file: Bytes, offset: nat)
    requires |file| <= U64_MAX
    ensures FileTally(hash, file, offset).verified + FileTally(hash, file, offset).findings ==
            |Visits(hash, file, offset)|
    decreases |file| - offset
  {
    hide Examine;
    if offset < |file| { TallyVisits(hash, file, Examine(hash, file, offset).next); }
  }

  function Payloads(recs: seq<Rec>): (n: nat)
  {
    if recs == [] then 0 else HEADER_LEN + |recs[0].payload| + Payloads(recs[1..])
  }

  /** An undamaged segment: each record is looked at once, in place, none else,
      and there is nothing to report. */
  lemma {:induction false} UndamagedIsClean(hash: Hasher, before: Bytes, recs: seq<Rec>)
    requires forall i :: 0 <= i < |recs| ==> hash(recs[i].payload) == recs[i].id
    requires |before + Encode(recs)| <= U64_MAX
    ensures var file := before + Encode(recs);
            && FileTally(hash, file, |before|) == Tally(|recs|, 0, Payloads(recs))
            && Visits(hash, file, |before|) ==
               seq(|recs|, i requires 0 <= i < |recs| => Layout(recs, 0, |before|)[i].loc.offset)
    decreases |recs|
  {
    hide Examine, Record;
    var file := before + Encode(recs);
    if recs != [] {
      var r, first := recs[0], Record(recs[0].id, recs[0].payload);
      assert file == (before + first) + Encode(recs[1..]);
      RecordStands(file, |before|, r);
      StandingVerifies(hash, file, |before|, r);
      UndamagedIsClean(hash, before + first, recs[1..]);
    }
  }

  lemma RecordStands(file: Bytes, offset: nat, r: Rec)
    requires offset + RecordLen(|r.payload|) <= |file| <= U64_MAX
    requires file[offset..offset + RecordLen(|r.payload|)] == Record(r.id, r.payload)
    ensures StandsAt(file, offset, r)
  {
    hide Record, ParseHeader;
    RecordHasHeader(r.id, r.payload);
    var n := RecordLen(|r.payload|);
    assert file[offset..offset + HEADER_LEN] == file[offset..offset + n][..HEADER_LEN];
    SliceOfSlice(file, offset, offset + n, HEADER_LEN, HEADER_LEN + |r.payload|);
  }

  // --------------------------------------------------------------- checkpoints

  datatype Summary = Summary(verified: U64, findings: U64, bytesRead: U64, complete: bool)

  /** `manifest` is the digest of the segment names, lengths and identities. */
  datatype Progress = Progress(version: nat, manifest: Bytes, segment: nat, offset: nat, summary: Summary)

  const NOTHING: Summary := Summary(0, 0, 0, false)

  ghost predicate Sized(files: seq<Bytes>, limit: nat)
  {
    forall i :: 0 <= i < |files| ==> |files[i]| <= limit
  }

  /** Whether a run resumes from a checkpoint. */
  predicate Accepts(files: seq<Bytes>, manifest: Bytes, p: Progress)
  {
    && p.version == 1 && p.manifest == manifest && p.segment <= |files| && p.offset % BLOCK_ALIGN == 0
    && (p.segment < |files| ==> p.offset <= SatAdd(|files[p.segment]|, BLOCK_ALIGN))
    && (p.summary.complete ==> p.segment == |files| && p.offset == 0)
  }

  function Tallied(sum: Summary, look: Look): (r: Summary)
  {
    Summary(if look.bad.None? then SatAdd(sum.verified, 1) else sum.verified,
            if look.bad.None? then sum.findings else SatAdd(sum.findings, 1),
            SatAdd(sum.bytesRead, look.read), sum.complete)
  }

  /** From one checkpoint to the next. */
  function Step(hash: Hasher, files: seq<Bytes>, p: Progress): (q: Progress)
    requires Sized(files, U64_MAX) && p.segment <= |files|
    ensures p.segment <= q.segment <= |files|
  {
    if p.segment == |files| then p.(summary := p.summary.(complete := true))
    else if p.offset < |files[p.segment]| then
      var look := Examine(hash, files[p.segment], p.offset);
      p.(offset := look.next, summary := Tallied(p.summary, look))
    else p.(segment := p.segment + 1, offset := 0)
  }

  function Left(files: seq<Bytes>, p: Progress): (n: nat)
    requires p.segment <= |files|
  {
    if p.segment < |files| && p.offset < |files[p.segment]| then |files[p.segment]| - p.offset else 0
  }

  /** Where a sweep from a checkpoint ends if nothing interrupts it. */
  function Finish(hash: Hasher, files: seq<Bytes>, p: Progress): (q: Progress)
    requires Sized(files, U64_MAX) && p.segment <= |files|
    decreases |files| - p.segment, Left(files, p), !p.summary.complete
  {
    if p.summary.complete then p else Finish(hash, files, Step(hash, files, p))
  }

  /** What `scrub` itself saves: the end is reached at offset 0. */
  ghost predicate Saved(files: seq<Bytes>, manifest: Bytes, p: Progress)
  {
    Accepts(files, manifest, p) && (p.segment == |files| ==> p.offset == 0)
  }

  /** Every checkpoint a sweep saves is one a later run accepts. */
  lemma StepAccepted(hash: Hasher, files: seq<Bytes>, manifest: Bytes, p: Progress)
    requires Sized(files, MAX_FILE) && Saved(files, manifest, p) && !p.summary.complete
    ensures Saved(files, manifest, Step(hash, files, p))
  {
    hide Examine;
    if p.segment < |files| && p.offset < |files[p.segment]| {
      NextIsAligned(hash, files[p.segment], p.offset);
    }
  }

  lemma NextIsAligned(hash: Hasher, file: Bytes, offset: nat)
    requires offset < |file| <= MAX_FILE && offset % BLOCK_ALIGN == 0
    ensures var next := Examine(hash, file, offset).next;
            next % BLOCK_ALIGN == 0 && next <= SatAdd(|file|, BLOCK_ALIGN)
  {
    hide Examine;
  }

  function Steps(hash: Hasher, files: seq<Bytes>, p: Progress, n: nat): (q: Progress)
    requires Sized(files, U64_MAX) && p.segment <= |files|
    ensures q.segment <= |files|
    decreases n
  {
    if n == 0 || p.summary.complete then p else Steps(hash, files, Step(hash, files, p), n - 1)
  }

  lemma {:induction false} StepsNext(hash: Hasher, files: seq<Bytes>, p: Progress, n: nat)
    requires Sized(files, U64_MAX) && p.segment <= |files| && !Steps(hash, files, p, n).summary.complete
    ensures Steps(hash, files, p, n + 1) == Step(hash, files, Steps(hash, files, p, n))
    decreases n
  {
    hide Step;
    if n > 0 { StepsNext(hash, files, Step(hash, files, p), n - 1); }
  }

  lemma {:induction false} FinishSteps(hash: Hasher, files: seq<Bytes>, p: Progress, n: nat)
    requires Sized(files, U64_MAX) && p.segment <= |files|
    ensures Finish(hash, files, Steps(hash, files, p, n)) == Finish(hash, files, p)
    decreases n
  {
    hide Step;
    if n > 0 && !p.summary.complete { FinishSteps(hash, files, Step(hash, files, p), n - 1); }
  }

  /** Stopping after any number of checkpoints and resuming from the last one
      ends where one uninterrupted sweep ends, and that checkpoint is accepted. */
  lemma {:induction false} ResumeAnywhere(hash: Hasher, files: seq<Bytes>, manifest: Bytes, p: Progress, n: nat)
    requires Sized(files, MAX_FILE) && Saved(files, manifest, p)
    ensures var q := Steps(hash, files, p, n);
            Saved(files, manifest, q) && Finish(hash, files, q) == Finish(hash, files, p)
    decreases n
  {
    hide Step;
    FinishSteps(hash, files, p, n);
    if n > 0 && !p.summary.complete {
      StepAccepted(hash, files, manifest, p);
      ResumeAnywhere(hash, files, manifest, Step(hash, files, p), n - 1);
    }
  }

  /** The plain totals of everything still to be swept. */
  function RestTally(hash: Hasher, files: seq<Bytes>, segment: nat, offset: nat): (t: Tally)
    requires Sized(files, U64_MAX) && segment <= |files|
    decreases |files| - segment
  {
    if segment == |files| then Tally(0, 0, 0)
    else Plus(FileTally(hash, files[segment], offset), RestTally(hash, files, segment + 1, 0))
  }

  function Saturate(sum: Summary, t: Tally): (r: Summary)
  {
    Summary(SatAdd(sum.verified, t.verified), SatAdd(sum.findings, t.findings), SatAdd(sum.bytesRead, t.read), true)
  }

  /** The finished summary is the starting one plus those totals, saturated once. */
  lemma {:induction false} FinishTotals(hash: Hasher, files: seq<Bytes>, p: Progress)
    requires Sized(files, U64_MAX) && p.segment <= |files| && !p.summary.complete
    ensures Finish(hash, files, p).summary == Saturate(p.summary, RestTally(hash, files, p.segment, p.offset))
    decreases |files| - p.segment, Left(files, p)
  {
    hide Examine;
    if p.segment < |files| {
      FinishTotals(hash, files, Step(hash, files, p));
    }
  }

  // ---------------------------------------------------------- the working code

  /** Hash a payload through a 64 KiB buffer. */
  method ReadPayload(file: Bytes, start: nat, len: nat) returns (fed: Bytes, read: nat)
    requires start + len <= |file|
    ensures fed == file[start..start + len] && read == len
  {
    fed, read := [], 0;
    while read < len
      invariant read <= len && fed == file[start..start + read]
    {
      var count := if len - read < CHUNK then len - read else CHUNK;
      var buffer := file[start + read..start + read + count];
      fed := fed + buffer;
      read := read + count;
    }
  }

  method Inspect(hash: Hasher, file: Bytes, offset: nat) returns (look: Look)
    requires offset < |file| <= U64_MAX
    ensures look == Examine(hash, file, offset)
  {
    hide ParseHeader;
    var bad: Option<Kind>, block: Option<BlockId>, next := None, None, SatAdd(offset, BLOCK_ALIGN);
    var read := 0;
    if |file| - offset < HEADER_LEN {
      read := |file| - offset;
      bad := Some(TruncatedHeader);
    } else {
      var header := file[offset..offset + HEADER_LEN];
      read := HEADER_LEN;
      var parsed := ParseHeader(header);
      if parsed.Some? {
        block := Some(parsed.value.id);
        if header[48..64] != Zeros(16) {
          bad := Some(InvalidReserved);
        } else if parsed.value.payloadLen + HEADER_LEN + BLOCK_ALIGN - 1 <= U64_MAX {
          var total := RecordLen(parsed.value.payloadLen);
          if total > |file| - offset {
            bad := Some(BadLength);
          } else {
            var fed, more := ReadPayload(file, offset + HEADER_LEN, parsed.value.payloadLen);
            read := read + more;
            if hash(fed) == parsed.value.id {
              next := offset + total;
            } else {
              bad := Some(HashMismatch);
            }
          }
        } else {
          bad := Some(LengthOverflow);
        }
      } else {
        bad := Some(InvalidHeader);
      }
    }
    look := Look(next, bad, block, read);
  }

  datatype Outcome = Refused | Interrupted(at: Progress) | Completed(final: Progress)

  /** Look at the rest of one segment, checkpoint by checkpoint, until its end
      or until `budget` checkpoints of the run are saved. */
  method SweepSegment(hash: Hasher, files: seq<Bytes>, ghost start: Progress, from: Progress,
                      initialBytes: U64, already: U64, saves: nat, budget: Option<nat>)
    returns (progress: Progress, read: U64, steps: nat)
    requires Sized(files, U64_MAX) && start.segment <= |files| && from.segment < |files|
    requires from == Steps(hash, files, start, saves) && !from.summary.complete
    requires budget.Some? ==> saves <= budget.value
    requires from.summary.bytesRead == SatAdd(initialBytes, already)
    ensures progress == Steps(hash, files, start, steps) && !progress.summary.complete
    ensures budget.Some? ==> steps <= budget.value
    ensures progress.segment == from.segment && progress.summary.bytesRead == SatAdd(initialBytes, read)
    ensures progress.offset >= |files[from.segment]| || budget == Some(steps)
  {
    hide Examine, Steps;
    progress, read, steps := from, already, saves;
    var file := files[progress.segment];
    while progress.offset < |file| && budget != Some(steps)
      invariant progress.segment == from.segment && !progress.summary.complete
      invariant progress == Steps(hash, files, start, steps) && (budget.Some? ==> steps <= budget.value)
      invariant progress.summary.bytesRead == SatAdd(initialBytes, read)
      decreases |file| - progress.offset
    {
      StepsNext(hash, files, start, steps);
      ghost var before := progress;
      var look := Inspect(hash, file, progress.offset);
      read := SatAdd(read, look.read);
      if look.bad.Some? {
        progress := progress.(summary := progress.summary.(findings := SatAdd(progress.summary.findings, 1)));
      } else {
        progress := progress.(summary := progress.summary.(verified := SatAdd(progress.summary.verified, 1)));
      }
      progress := progress.(offset := look.next, summary := progress.summary.(bytesRead := SatAdd(initialBytes, read)));
      assert progress == Step(hash, files, before);
      steps := steps + 1;
    }
  }

  /** One run: from the saved checkpoint, if there is one, to the end, unless it
      is killed once `budget` more checkpoints are saved. */
  method Sweep(hash: Hasher, files: seq<Bytes>, manifest: Bytes, saved: Option<Progress>, budget: Option<nat>)
    returns (r: Outcome)
    requires Sized(files, U64_MAX)
    ensures var p := if saved.Some? then saved.value else Progress(1, manifest, 0, 0, NOTHING);
            if !Accepts(files, manifest, p) then r.Refused?
            else
              || r == Completed(Finish(hash, files, p))
              || (budget.Some? && r == Interrupted(Steps(hash, files, p, budget.value)))
  {
    hide Step, Steps, Finish;
    var progress := if saved.Some? then saved.value else Progress(1, manifest, 0, 0, NOTHING);
    if !Accepts(files, manifest, progress) {
      return Refused;
    }
    if progress.summary.complete {
      Finished(hash, files, progress);
      return Completed(progress);
    }
    ghost var start := progress;
    var initialBytes, read: U64, steps: nat := progress.summary.bytesRead, 0, 0;
    NoSteps(hash, files, start);
    while progress.segment < |files|
      invariant progress.segment <= |files| && progress == Steps(hash, files, start, steps)
      invariant !progress.summary.complete
      invariant progress.summary.bytesRead == SatAdd(initialBytes, read) && (budget.Some? ==> steps <= budget.value)
    {
      progress, read, steps := SweepSegment(hash, files, start, progress, initialBytes, read, steps, budget);
      if budget == Some(steps) {
        return Interrupted(progress);
      }
      StepsNext(hash, files, start, steps);
      NextSegment(hash, files, progress);
      progress := progress.(segment := progress.segment + 1, offset := 0);
      steps := steps + 1;
    }
    StepsNext(hash, files, start, steps);
    NextSegment(hash, files, progress);
    progress := progress.(summary := progress.summary.(complete := true));
    FinishSteps(hash, files, start, steps + 1);
    Finished(hash, files, progress);
    return Completed(progress);
  }

  lemma NextSegment(hash: Hasher, files: seq<Bytes>, p: Progress)
    requires Sized(files, U64_MAX) && p.segment <= |files| && (p.segment < |files| ==> p.offset >= |files[p.segment]|)
    ensures Step(hash, files, p) == if p.segment < |files| then p.(segment := p.segment + 1, offset := 0)
                                    else p.(summary := p.summary.(complete := true))
  {
  }

  lemma Finished(hash: Hasher, files: seq<Bytes>, p: Progress)
    requires Sized(files, U64_MAX) && p.segment <= |files| && p.summary.complete
    ensures Finish(hash, files, p) == p
  {
  }

  lemma NoSteps(hash: Hasher, files: seq<Bytes>, p: Progress)
    requires Sized(files, U64_MAX) && p.segment <= |files|
    ensures Steps(hash, files, p, 0) == p
  {
  }

  /** Killed and restarted any number of times, the sweep is never refused and
      reports exactly the totals of the files. */
  method SweepWithRestarts(hash: Hasher, files: seq<Bytes>, manifest: Bytes, budgets: seq<nat>)
    returns (summary: Summary)
    requires Sized(files, MAX_FILE)
    ensures summary == Saturate(NOTHING, RestTally(hash, files, 0, 0))
  {
    hide Step, Steps, Finish, RestTally, Saturate;
    ghost var first := Progress(1, manifest, 0, 0, NOTHING);
    FinishTotals(hash, files, first);
    var saved: Option<Progress> := None;
    for i := 0 to |budgets|
      invariant saved.Some? ==>
          Saved(files, manifest, saved.value) && Finish(hash, files, saved.value) == Finish(hash, files, first)
    {
      var r := Sweep(hash, files, manifest, saved, Some(budgets[i]));
      if r.Completed? {
        return r.final.summary;
      }
      ResumeAnywhere(hash, files, manifest, if saved.Some? then saved.value else first, budgets[i]);
      saved := Some(r.at);
    }
    var r := Sweep(hash, files, manifest, saved, None);
    return r.final.summary;
  }
}
