/** The upload-retention journal: a sequenced, checksummed binary log and what
    opening it after a crash at any byte recovers. */
module RetentionJournal {
  import opened Core
  import opened Encoding

  const HEADER: nat := 56
  const MAX_BATCH: nat := 4096
  const MAX_IDS: nat := 1_048_576
  const MAX_BYTES: nat := 128 * 1024 * 1024
  const MAGIC_1: Bytes := [0x4B, 0x4C, 0x50, 0x4B, 0x55, 0x4C, 0x30, 0x31]
  const MAGIC_2: Bytes := [0x4B, 0x4C, 0x50, 0x4B, 0x55, 0x4C, 0x30, 0x32]

  type Generations = map<BlockId, nat>

  datatype JournalError = TooLarge | CorruptHeader | InvalidRecord | CorruptPayload | TooManyIds

  // ----------------------------------------------------------------- writing

  function Head(count: nat, sequence: nat): (b: Bytes)
    ensures |b| == 24
  {
    MAGIC_2 + LE(count, 4) + Zeros(4) + LE(sequence, 8)
  }

  function RecordSize(count: nat): (n: nat)
  {
    HEADER + count * 32 + 32
  }

  function RecordOf(hash: Hasher, sequence: nat, ids: seq<BlockId>): (b: Bytes)
    ensures |b| == RecordSize(|ids|)
  {
    var head := Head(|ids|, sequence);
    head + hash(head).raw + IdBytes(ids) + hash(IdBytes(ids)).raw
  }

  /** The journal of `batches`, whose sequence numbers start at 1. */
  function Journal(hash: Hasher, batches: seq<seq<BlockId>>): (b: Bytes)
  {
    if batches == [] then []
    else Journal(hash, batches[..|batches| - 1]) + RecordOf(hash, |batches|, batches[|batches| - 1])
  }

  function Stamp(gens: Generations, ids: seq<BlockId>, sequence: nat): (r: Generations)
  {
    map id | id in gens.Keys + (set i | i in ids) :: if id in ids then sequence else gens[id]
  }

  /** Each id with the sequence number of the last batch that names it. */
  function Latest(batches: seq<seq<BlockId>>): (r: Generations)
  {
    if batches == [] then map[]
    else Stamp(Latest(batches[..|batches| - 1]), batches[|batches| - 1], |batches|)
  }

  /** `Latest` is the largest sequence number whose batch holds the id. */
  lemma {:induction false} LatestIsLargest(batches: seq<seq<BlockId>>, id: BlockId)
    ensures id in Latest(batches) <==> exists k :: 0 <= k < |batches| && id in batches[k]
    ensures id in Latest(batches) ==>
              var g := Latest(batches)[id];
              1 <= g <= |batches| && id in batches[g - 1] && forall k :: g <= k < |batches| ==> id !in batches[k]
    decreases |batches|
  {
    if batches != [] {
      var n := |batches| - 1;
      LatestIsLargest(batches[..n], id);
      if id in Latest(batches) && id !in batches[n] {
        var g := Latest(batches[..n])[id];
        assert batches[..n][g - 1] == batches[g - 1];
        forall k | g <= k < |batches| ensures id !in batches[k] {
          if k < n { assert batches[..n][k] == batches[k]; }
        }
      }
      if k :| 0 <= k < |batches| && id in batches[k] {
        if k < n { assert batches[..n][k] == batches[k]; }
      }
    }
  }

  // ----------------------------------------------------------------- reading

  datatype Recovered = Recovered(ids: Generations, sequence: nat, bytes: nat)

  datatype Step = Stop | Bad(error: JournalError) | More(ids: seq<BlockId>)

  /** Read the record at `pos`; a header or body cut short ends the journal. */
  function ReadRecord(hash: Hasher, file: Bytes, pos: nat, sequence: nat): (s: Step)
    requires pos <= |file|
  {
    if pos + HEADER > |file| then Stop
    else
      var h := file[pos..pos + HEADER];
      if (h[..8] != MAGIC_1 && h[..8] != MAGIC_2) || h[12..16] != Zeros(4) || hash(h[..24]).raw != h[24..56] then
        Bad(CorruptHeader)
      else
        var count, next := FromLE(h[8..12]), FromLE(h[16..24]);
        if !(1 <= count <= MAX_BATCH) || sequence + 1 != next then Bad(InvalidRecord)
        else if pos + RecordSize(count) > |file| then Stop
        else
          var body := file[pos + HEADER..pos + RecordSize(count)];
          if hash(body[..count * 32]).raw != body[count * 32..] then Bad(CorruptPayload)
          else More(Chunks(body[..count * 32], count))
  }

  function RecoverFrom(hash: Hasher, file: Bytes, r: Recovered): (out: Result<Recovered, JournalError>)
    requires r.bytes <= |file|
    decreases |file| - r.bytes
  {
    match ReadRecord(hash, file, r.bytes, r.sequence)
    case Stop => Ok(r)
    case Bad(e) => Err(e)
    case More(ids) =>
      var next := Recovered(Stamp(r.ids, ids, r.sequence + 1), r.sequence + 1, r.bytes + RecordSize(|ids|));
      if |next.ids| > MAX_IDS then Err(TooManyIds) else RecoverFrom(hash, file, next)
  }

  function Recover(hash: Hasher, file: Bytes): (out: Result<Recovered, JournalError>)
  {
    if |file| > MAX_BYTES then Err(TooLarge) else RecoverFrom(hash, file, Recovered(map[], 0, 0))
  }

  // ------------------------------------------------------- records read back

  lemma HeadFields(count: nat, sequence: nat)
    ensures var h := Head(count, sequence);
            h[..8] == MAGIC_2 && h[8..12] == LE(count, 4) && h[12..16] == Zeros(4) && h[16..24] == LE(sequence, 8)
  {
  }

  lemma RecordFields(hash: Hasher, sequence: nat, ids: seq<BlockId>)
    ensures var b, head := RecordOf(hash, sequence, ids), Head(|ids|, sequence);
            && b[..24] == head && b[24..56] == hash(head).raw
            && b[56..56 + |ids| * 32] == IdBytes(ids) && b[56 + |ids| * 32..] == hash(IdBytes(ids)).raw
  {
    hide Head, IdBytes, FromLE, LE;
    var head, tail := Head(|ids|, sequence), IdBytes(ids);
    var b := head + hash(head).raw + tail + hash(tail).raw;
    FourParts(head, hash(head).raw, tail, hash(tail).raw);
    assert RecordOf(hash, sequence, ids) == b && |head| == 24 && |tail| == |ids| * 32;
  }

  lemma FourParts(a: Bytes, b: Bytes, c: Bytes, d: Bytes)
    ensures var s := a + b + c + d;
            && s[..|a|] == a && s[|a|..|a| + |b|] == b
            && s[|a| + |b|..|a| + |b| + |c|] == c && s[|a| + |b| + |c|..] == d
  {
    var s := a + b + c + d;
    assert s == a + (b + c + d) && s == (a + b) + (c + d) && s == (a + b + c) + d;
  }

  ghost predicate GoodBatch(ids: seq<BlockId>)
  {
    1 <= |ids| <= MAX_BATCH
  }

  /** A record cut at `n` bytes: read back whole, or not at all. */
  lemma ReadBack(hash: Hasher, before: Bytes, sequence: nat, ids: seq<BlockId>, after: Bytes)
    requires GoodBatch(ids) && sequence + 1 <= U64_MAX
    ensures ReadRecord(hash, before + RecordOf(hash, sequence + 1, ids) + after, |before|, sequence) == More(ids)
  {
    var rec := RecordOf(hash, sequence + 1, ids);
    var file := before + rec + after;
    HeaderReadsBack(hash, file, |before|, sequence, ids);
    RecordFields(hash, sequence + 1, ids);
    hide RecordOf, Head, IdBytes, FromLE, LE, Chunks;
    var n := RecordSize(|ids|);
    var body := file[|before| + HEADER..|before| + n];
    assert body == rec[56..];
    assert rec[56..][..|ids| * 32] == rec[56..56 + |ids| * 32];
    assert rec[56..][|ids| * 32..] == rec[56 + |ids| * 32..];
    ChunksOfIds(ids);
  }

  /** What the header of a record at `pos` yields, whatever follows it. */
  lemma HeaderReadsBack(hash: Hasher, file: Bytes, pos: nat, sequence: nat, ids: seq<BlockId>)
    requires GoodBatch(ids) && sequence + 1 <= U64_MAX
    requires pos + HEADER <= |file| && file[pos..pos + HEADER] == RecordOf(hash, sequence + 1, ids)[..HEADER]
    ensures var h := file[pos..pos + HEADER];
            && h[..8] == MAGIC_2 && h[12..16] == Zeros(4) && hash(h[..24]).raw == h[24..56]
            && FromLE(h[8..12]) == |ids| && FromLE(h[16..24]) == sequence + 1
  {
    var h, rec := file[pos..pos + HEADER], RecordOf(hash, sequence + 1, ids);
    var head := Head(|ids|, sequence + 1);
    RecordFields(hash, sequence + 1, ids);
    HeadFields(|ids|, sequence + 1);
    WordSizes();
    LERoundTrip(|ids|, 4);
    LERoundTrip(sequence + 1, 8);
    hide RecordOf, Head, FromLE, LE, Pow256;
    assert h[..24] == rec[..24] == head;
    assert h[24..56] == rec[24..56];
    assert h[..8] == head[..8] && h[8..12] == head[8..12] && h[12..16] == head[12..16] && h[16..24] == head[16..24];
  }

  /** A record cut short anywhere ends the journal before it. */
  lemma ReadTorn(hash: Hasher, before: Bytes, sequence: nat, ids: seq<BlockId>, cut: nat)
    requires GoodBatch(ids) && sequence + 1 <= U64_MAX && cut < RecordSize(|ids|)
    ensures ReadRecord(hash, before + RecordOf(hash, sequence + 1, ids)[..cut], |before|, sequence) == Stop
  {
    var rec := RecordOf(hash, sequence + 1, ids);
    var file := before + rec[..cut];
    hide RecordOf, FromLE;
    if cut >= HEADER {
      assert file[|before|..|before| + HEADER] == rec[..HEADER];
      HeaderReadsBack(hash, file, |before|, sequence, ids);
    }
  }

  // ------------------------------------------------------ recovery at any cut

  /** What `protect` writes: non-empty bounded batches within both capacities. */
  ghost predicate GoodJournal(hash: Hasher, batches: seq<seq<BlockId>>)
  {
    && (forall k :: 0 <= k < |batches| ==> GoodBatch(batches[k]))
    && |batches| <= U64_MAX && |Latest(batches)| <= MAX_IDS && |Journal(hash, batches)| <= MAX_BYTES
  }

  /** How many records lie whole within the first `cut` bytes. */
  function WholeRecords(hash: Hasher, batches: seq<seq<BlockId>>, cut: nat): (k: nat)
    ensures k <= |batches| && |Journal(hash, batches[..k])| <= cut
    ensures k < |batches| ==> cut < |Journal(hash, batches[..k + 1])|
    decreases |batches|
  {
    assert batches[..|batches|] == batches;
    if |Journal(hash, batches)| <= cut then |batches|
    else
      var n := |batches| - 1;
      var k := WholeRecords(hash, batches[..n], cut);
      assert batches[..n][..k] == batches[..k];
      assert k < n ==> batches[..n][..k + 1] == batches[..k + 1];
      k
  }

  lemma JournalStep(hash: Hasher, batches: seq<seq<BlockId>>, n: nat)
    requires n < |batches|
    ensures Journal(hash, batches[..n + 1]) == Journal(hash, batches[..n]) + RecordOf(hash, n + 1, batches[n])
    ensures Latest(batches[..n + 1]) == Stamp(Latest(batches[..n]), batches[n], n + 1)
  {
    hide RecordOf, Stamp;
    assert batches[..n + 1][..n] == batches[..n];
  }

  lemma {:induction false} JournalPrefix(hash: Hasher, batches: seq<seq<BlockId>>, n: nat)
    requires n <= |batches|
    ensures Journal(hash, batches[..n]) <= Journal(hash, batches)
    ensures Latest(batches[..n]).Keys <= Latest(batches).Keys
    decreases |batches| - n
  {
    hide Journal, Latest, RecordOf;
    if n == |batches| {
      assert batches[..n] == batches;
    } else {
      JournalStep(hash, batches, n);
      JournalPrefix(hash, batches, n + 1);
    }
  }

  function State(hash: Hasher, batches: seq<seq<BlockId>>, n: nat): (r: Recovered)
    requires n <= |batches|
  {
    Recovered(Latest(batches[..n]), n, |Journal(hash, batches[..n])|)
  }

  /** A cut file, seen from the end of its first `n` records. */
  lemma CutAt(hash: Hasher, batches: seq<seq<BlockId>>, cut: nat, n: nat)
    requires cut <= |Journal(hash, batches)| && n < |batches| && |Journal(hash, batches[..n])| <= cut
    ensures var before, rec := Journal(hash, batches[..n]), RecordOf(hash, n + 1, batches[n]);
            var file := Journal(hash, batches)[..cut];
            && (cut < |before| + |rec| ==> file == before + rec[..cut - |before|])
            && (cut >= |before| + |rec| ==> file == before + rec + file[|before| + |rec|..])
  {
    hide Journal, RecordOf;
    JournalStep(hash, batches, n);
    JournalPrefix(hash, batches, n + 1);
    var before, rec := Journal(hash, batches[..n]), RecordOf(hash, n + 1, batches[n]);
    var file := Journal(hash, batches)[..cut];
    assert before + rec <= Journal(hash, batches);
    if cut < |before| + |rec| {
      assert file == (before + rec)[..cut];
    } else {
      assert file[..|before| + |rec|] == before + rec;
    }
  }

  /** Reading on after `n` records of a cut journal. */
  lemma ReadNext(hash: Hasher, batches: seq<seq<BlockId>>, cut: nat, n: nat)
    requires GoodJournal(hash, batches) && cut <= |Journal(hash, batches)| && n <= |batches|
    requires |Journal(hash, batches[..n])| <= cut
    ensures var read := ReadRecord(hash, Journal(hash, batches)[..cut], |Journal(hash, batches[..n])|, n);
            read == if n < |batches| && |Journal(hash, batches[..n + 1])| <= cut then More(batches[n]) else Stop
  {
    hide Journal, Latest, RecordOf, ReadRecord;
    var before, file := Journal(hash, batches[..n]), Journal(hash, batches)[..cut];
    if n < |batches| {
      var rec := RecordOf(hash, n + 1, batches[n]);
      JournalStep(hash, batches, n);
      CutAt(hash, batches, cut, n);
      if cut >= |before| + |rec| {
        ReadBack(hash, before, n, batches[n], file[|before| + |rec|..]);
      } else {
        ReadTorn(hash, before, n, batches[n], cut - |before|);
      }
    } else {
      assert batches[..n] == batches;
      EndOfFile(hash, file, n);
    }
  }

  lemma {:induction false} RecoverWhole(hash: Hasher, batches: seq<seq<BlockId>>, cut: nat, n: nat)
    requires GoodJournal(hash, batches) && cut <= |Journal(hash, batches)|
    requires n <= WholeRecords(hash, batches, cut) && |Journal(hash, batches[..n])| <= cut
    ensures RecoverFrom(hash, Journal(hash, batches)[..cut], State(hash, batches, n))
         == Ok(State(hash, batches, WholeRecords(hash, batches, cut)))
    decreases |batches| - n
  {
    hide Journal, Latest, RecordOf, ReadRecord, WholeRecords, Stamp;
    var k := WholeRecords(hash, batches, cut);
    ReadNext(hash, batches, cut, n);
    if n < k {
      JournalStep(hash, batches, n);
      KeepsRoom(hash, batches, n + 1, k);
      JournalPrefix(hash, batches, n + 1);
      SubsetSize(Latest(batches[..n + 1]).Keys, Latest(batches).Keys);
      RecoverWhole(hash, batches, cut, n + 1);
    }
  }

  lemma {:induction false} KeepsRoom(hash: Hasher, batches: seq<seq<BlockId>>, n: nat, k: nat)
    requires n <= k <= |batches|
    ensures |Journal(hash, batches[..n])| <= |Journal(hash, batches[..k])|
    decreases k - n
  {
    hide Journal, RecordOf;
    if n < k {
      JournalStep(hash, batches, n);
      KeepsRoom(hash, batches, n + 1, k);
    }
  }

  lemma EndOfFile(hash: Hasher, file: Bytes, sequence: nat)
    ensures ReadRecord(hash, file, |file|, sequence) == Stop
  {
  }

  /** A journal cut at any byte opens without error; exactly the longest run of
      whole records comes back, each id at the largest sequence holding it, and
      the length to truncate to is the journal of those records. */
  lemma RecoverAfterCut(hash: Hasher, batches: seq<seq<BlockId>>, cut: nat)
    requires GoodJournal(hash, batches) && cut <= |Journal(hash, batches)|
    ensures var k := WholeRecords(hash, batches, cut);
            var file := Journal(hash, batches)[..cut];
            && Recover(hash, file) == Ok(Recovered(Latest(batches[..k]), k, |Journal(hash, batches[..k])|))
            && file[..|Journal(hash, batches[..k])|] == Journal(hash, batches[..k])
            && GoodJournal(hash, batches[..k])
  {
    hide RecoverFrom, WholeRecords, Journal, Latest;
    var k := WholeRecords(hash, batches, cut);
    NothingRecovered(hash, batches);
    RecoverWhole(hash, batches, cut, 0);
    JournalPrefix(hash, batches, k);
    SubsetSize(Latest(batches[..k]).Keys, Latest(batches).Keys);
  }

  lemma NothingRecovered(hash: Hasher, batches: seq<seq<BlockId>>)
    ensures State(hash, batches, 0) == Recovered(map[], 0, 0)
  {
    assert batches[..0] == [];
  }

  /** Records acknowledged before the cut survive it, so an id keeps at least
      the generation it was acknowledged with, and exactly that one unless a
      later batch that also survived names it again. */
  lemma AcknowledgedSurvives(hash: Hasher, batches: seq<seq<BlockId>>, cut: nat, n: nat, id: BlockId)
    requires n <= |batches| && |Journal(hash, batches[..n])| <= cut && id in Latest(batches[..n])
    ensures var k := WholeRecords(hash, batches, cut);
            && n <= k && id in Latest(batches[..k]) && Latest(batches[..n])[id] <= Latest(batches[..k])[id]
            && ((forall m :: n <= m < k ==> id !in batches[m]) ==> Latest(batches[..n])[id] == Latest(batches[..k])[id])
  {
    hide Journal, Latest, WholeRecords;
    var k := WholeRecords(hash, batches, cut);
    if k < n { KeepsRoom(hash, batches, k + 1, n); }
    assert n <= k;
    LatestIsLargest(batches[..n], id);
    LatestIsLargest(batches[..k], id);
    var g := Latest(batches[..n])[id];
    assert id in batches[..n][g - 1] && batches[..n][g - 1] == batches[..k][g - 1];
    var g' := Latest(batches[..k])[id];
    assert g <= g' && batches[..k][g' - 1] == batches[g' - 1];
    assert g' <= n ==> batches[..n][g' - 1] == batches[g' - 1];
  }
}
