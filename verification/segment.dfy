/** Little-endian integers, lists of ids and zero padding. */
module Encoding {
  import opened Core

  function LE(n: nat, width: nat): (b: Bytes)
    ensures |b| == width
  {
    if width == 0 then [] else [n % 256] + LE(n / 256, width - 1)
  }

  function FromLE(b: Bytes): (n: nat)
  {
    if b == [] then 0 else b[0] + 256 * FromLE(b[1..])
  }

  function Pow256(k: nat): (n: nat)
  {
    if k == 0 then 1 else 256 * Pow256(k - 1)
  }

  lemma {:induction false} LERoundTrip(n: nat, width: nat)
    requires n < Pow256(width)
    ensures FromLE(LE(n, width)) == n
    decreases width
  {
    if width != 0 {
      LERoundTrip(n / 256, width - 1);
      assert LE(n, width)[1..] == LE(n / 256, width - 1);
    }
  }

  lemma DivMod256(low: Byte, high: nat)
    ensures (low + 256 * high) % 256 == low && (low + 256 * high) / 256 == high
  {
  }

  lemma {:induction false} FromLERoundTrip(b: Bytes)
    ensures FromLE(b) < Pow256(|b|)
    ensures LE(FromLE(b), |b|) == b
    decreases |b|
  {
    if b != [] {
      var n, rest := FromLE(b), FromLE(b[1..]);
      FromLERoundTrip(b[1..]);
      DivMod256(b[0], rest);
      assert n == b[0] + 256 * rest && LE(n, |b|) == [n % 256] + LE(n / 256, |b| - 1);
      assert b == [b[0]] + b[1..];
    }
  }

  lemma WordSizes()
    ensures Pow256(4) == 0x1_0000_0000
    ensures Pow256(8) == U64_MAX + 1
  {
    assert Pow256(4) == 256 * 256 * 256 * 256 * Pow256(0);
    assert Pow256(8) == 256 * 256 * 256 * 256 * Pow256(4);
  }

  function Zeros(n: nat): (b: Bytes)
    ensures |b| == n
  {
    seq(n, _ => 0)
  }

  lemma SliceOfSlice(file: Bytes, from: nat, to: nat, a: nat, b: nat)
    requires from <= to <= |file| && a <= b <= to - from
    ensures file[from..to][a..b] == file[from + a..from + b]
  {
    var x, y := file[from..to][a..b], file[from + a..from + b];
    assert |x| == |y| && forall i :: 0 <= i < |x| ==> x[i] == y[i];
  }

  /** Ids one after the other. */
  function IdBytes(ids: seq<BlockId>): (b: Bytes)
    ensures |b| == 32 * |ids|
  {
    if ids == [] then [] else ids[0].raw + IdBytes(ids[1..])
  }

  /** The ids of a body, 32 bytes each. */
  function Chunks(body: Bytes, count: nat): (ids: seq<BlockId>)
    requires |body| == 32 * count
    ensures |ids| == count
  {
    if count == 0 then [] else [BlockId(body[..32])] + Chunks(body[32..], count - 1)
  }

  lemma {:induction false} ChunksOfIds(ids: seq<BlockId>)
    ensures Chunks(IdBytes(ids), |ids|) == ids
    decreases |ids|
  {
    if ids != [] {
      assert IdBytes(ids)[..32] == ids[0].raw && IdBytes(ids)[32..] == IdBytes(ids[1..]);
      ChunksOfIds(ids[1..]);
    }
  }

  lemma {:induction false} IdsOfChunks(body: Bytes, count: nat)
    requires |body| == 32 * count
    ensures IdBytes(Chunks(body, count)) == body
    decreases count
  {
    if count != 0 {
      IdsOfChunks(body[32..], count - 1);
      assert Chunks(body, count)[1..] == Chunks(body[32..], count - 1);
    }
  }

  lemma {:induction false} IdBytesPush(ids: seq<BlockId>, id: BlockId)
    ensures IdBytes(ids + [id]) == IdBytes(ids) + id.raw
    decreases |ids|
  {
    if ids != [] {
      IdBytesPush(ids[1..], id);
      assert (ids + [id])[1..] == ids[1..] + [id];
    }
  }
}

/** The on-disk record format of segment files and the recovery scan. */
module Segment {
  import opened Core
  import opened Encoding

  const BLOCK_ALIGN: nat := 4096
  const HEADER_LEN: nat := 64
  const MAGIC: Bytes := [0x4B, 0x4C, 0x50, 0x4B]
  const FORMAT_VERSION: nat := 1

  /** Bytes a record occupies: header and payload, rounded up to the alignment. */
  function RecordLen(payloadLen: nat): (n: nat)
    ensures n % BLOCK_ALIGN == 0 && HEADER_LEN + payloadLen <= n < HEADER_LEN + payloadLen + BLOCK_ALIGN
  {
    (HEADER_LEN + payloadLen + BLOCK_ALIGN - 1) / BLOCK_ALIGN * BLOCK_ALIGN
  }

  function Header(id: BlockId, payloadLen: nat): (h: Bytes)
    ensures |h| == HEADER_LEN
  {
    MAGIC + LE(FORMAT_VERSION, 4) + LE(payloadLen, 8) + id.raw + Zeros(16)
  }

  function Record(id: BlockId, payload: Bytes): (r: Bytes)
    ensures |r| == RecordLen(|payload|)
  {
    Header(id, |payload|) + payload + Zeros(RecordLen(|payload|) - HEADER_LEN - |payload|)
  }

  datatype RecordHeader = RecordHeader(id: BlockId, payloadLen: U64)

  function ParseHeader(h: Bytes): (r: Option<RecordHeader>)
    requires |h| == HEADER_LEN
  {
    if h[0..4] != MAGIC then None
    else if FromLE(h[4..8]) != FORMAT_VERSION then None
    else
      assert FromLE(h[8..16]) <= U64_MAX by { WordSizes(); FromLERoundTrip(h[8..16]); }
      Some(RecordHeader(BlockId(h[16..48]), FromLE(h[8..16])))
  }

  /** The four fields of a header, in place. */
  lemma HeaderFields(id: BlockId, payloadLen: U64)
    ensures var e := Header(id, payloadLen);
            e[0..4] == MAGIC && e[4..8] == LE(FORMAT_VERSION, 4) && e[8..16] == LE(payloadLen, 8) && e[16..48] == id.raw
  {
  }

  lemma FieldsDecide(a: Bytes, b: Bytes)
    requires |a| == |b| == HEADER_LEN
    ensures a[..48] == b[..48] <==>
              a[0..4] == b[0..4] && a[4..8] == b[4..8] && a[8..16] == b[8..16] && a[16..48] == b[16..48]
  {
    assert a[..48] == a[0..4] + a[4..8] + a[8..16] + a[16..48];
    assert b[..48] == b[0..4] + b[4..8] + b[8..16] + b[16..48];
    assert a[0..4] == a[..48][0..4] && a[4..8] == a[..48][4..8] && a[8..16] == a[..48][8..16]
           && a[16..48] == a[..48][16..48];
    assert b[0..4] == b[..48][0..4] && b[4..8] == b[..48][4..8] && b[8..16] == b[..48][8..16]
           && b[16..48] == b[..48][16..48];
  }

  lemma LEExact(b: Bytes, n: nat)
    requires n < Pow256(|b|)
    ensures FromLE(b) == n <==> b == LE(n, |b|)
  {
    LERoundTrip(n, |b|);
    FromLERoundTrip(b);
  }

  /** A header parses exactly when its first 48 bytes are those the encoder
      writes; the reserved bytes are not looked at. */
  lemma ParseHeaderExact(h: Bytes, id: BlockId, payloadLen: U64)
    requires |h| == HEADER_LEN
    ensures ParseHeader(h) == Some(RecordHeader(id, payloadLen)) <==> h[..48] == Header(id, payloadLen)[..48]
  {
    WordSizes();
    HeaderFields(id, payloadLen);
    FieldsDecide(h, Header(id, payloadLen));
    LEExact(h[4..8], FORMAT_VERSION);
    LEExact(h[8..16], payloadLen);
    hide LE, FromLE, Header, Pow256;
  }

  // -------------------------------------------------------------------- scan

  datatype Location = Location(segment: nat, offset: nat, payloadLen: nat)

  datatype Indexed = Indexed(id: BlockId, loc: Location)

  /** `Overflowed` is the scan meeting a header whose declared length takes the
      64-bit offset arithmetic past its range: in a build with overflow checks
      the scan ends there. A build without them wraps around instead. */
  datatype ScanResult =
    | Scanned(found: seq<Indexed>, end: nat)
    | Overflowed(found: seq<Indexed>, end: nat)

  function Prepend(first: seq<Indexed>, rest: ScanResult): (r: ScanResult)
  {
    rest.(found := first + rest.found)
  }

  function ScanFrom(file: Bytes, segment: nat, offset: nat): (r: ScanResult)
    requires offset <= |file|
    decreases |file| - offset
  {
    if offset + HEADER_LEN > |file| then Scanned([], offset)
    else match ParseHeader(file[offset..offset + HEADER_LEN])
      case None => Scanned([], offset)
      case Some(h) =>
        var next := offset + RecordLen(h.payloadLen);
        if next > U64_MAX then Overflowed([], offset)
        else if next > |file| then Scanned([], offset)
        else Prepend([Indexed(h.id, Location(segment, offset, h.payloadLen))], ScanFrom(file, segment, next))
  }

  /** A header starts at `at` and declares this payload length. */
  ghost predicate Declares(file: Bytes, at: nat, payloadLen: U64)
  {
    at + HEADER_LEN <= |file| && exists id :: file[at..at + 48] == Header(id, payloadLen)[..48]
  }

  /** Whole records, each where the one before it ends, lead from `offset` to `at`. */
  ghost predicate RecordsLead(file: Bytes, offset: nat, at: nat)
    decreases at - offset
  {
    offset == at ||
    exists payloadLen: U64 ::
      && Declares(file, offset, payloadLen)
      && offset + RecordLen(payloadLen) <= at && offset + RecordLen(payloadLen) <= |file|
      && RecordsLead(file, offset + RecordLen(payloadLen), at)
  }

  lemma DeclaresParses(file: Bytes, at: nat, payloadLen: U64)
    requires at + HEADER_LEN <= |file|
    ensures Declares(file, at, payloadLen) <==>
              var h := ParseHeader(file[at..at + HEADER_LEN]); h.Some? && h.value.payloadLen == payloadLen
  {
    hide ParseHeader, Header;
    var h := file[at..at + HEADER_LEN];
    assert h[..48] == file[at..at + 48];
    if ParseHeader(h).Some? { ParseHeaderExact(h, ParseHeader(h).value.id, ParseHeader(h).value.payloadLen); }
    if id :| file[at..at + 48] == Header(id, payloadLen)[..48] { ParseHeaderExact(h, id, payloadLen); }
  }

  lemma FirstStep(file: Bytes, offset: nat, at: nat)
    ensures RecordsLead(file, offset, at) <==>
              || offset == at
              || (&& offset + HEADER_LEN <= |file| && ParseHeader(file[offset..offset + HEADER_LEN]).Some?
                  && var next := offset + RecordLen(ParseHeader(file[offset..offset + HEADER_LEN]).value.payloadLen);
                     next <= |file| && RecordsLead(file, next, at))
  {
    hide ParseHeader, Declares;
    if offset + HEADER_LEN <= |file| { OnlyDeclares(file, offset); }
    forall payloadLen: U64 | Declares(file, offset, payloadLen) ensures offset + HEADER_LEN <= |file| {
      HasHeader(file, offset, payloadLen);
    }
  }

  lemma OnlyDeclares(file: Bytes, at: nat)
    requires at + HEADER_LEN <= |file|
    ensures forall payloadLen: U64 :: Declares(file, at, payloadLen) <==>
              var h := ParseHeader(file[at..at + HEADER_LEN]); h.Some? && h.value.payloadLen == payloadLen
  {
    hide ParseHeader, Declares;
    forall payloadLen: U64
      ensures Declares(file, at, payloadLen) <==>
                var h := ParseHeader(file[at..at + HEADER_LEN]); h.Some? && h.value.payloadLen == payloadLen
    {
      DeclaresParses(file, at, payloadLen);
    }
  }

  /** Whole records lead to a header whose record would end past 64 bits. */
  ghost predicate LeadsPast(file: Bytes, offset: nat)
  {
    exists at: nat, payloadLen: U64 ::
      RecordsLead(file, offset, at) && Declares(file, at, payloadLen) && at + RecordLen(payloadLen) > U64_MAX
  }

  /** Not every file can be scanned: the arithmetic leaves the 64-bit range
      exactly when whole records lead to a header that declares a length past it. */
  lemma {:induction false} ScanOverflowsIff(file: Bytes, segment: nat, offset: nat)
    requires offset <= |file|
    ensures ScanFrom(file, segment, offset).Overflowed? <==> LeadsPast(file, offset)
    ensures offset <= ScanFrom(file, segment, offset).end <= |file|
    decreases |file| - offset
  {
    hide ParseHeader, LeadsPast;
    LeadsPastStep(file, offset);
    if offset + HEADER_LEN <= |file| {
      var h := ParseHeader(file[offset..offset + HEADER_LEN]);
      if h.Some? && offset + RecordLen(h.value.payloadLen) <= |file|
         && offset + RecordLen(h.value.payloadLen) <= U64_MAX {
        ScanOverflowsIff(file, segment, offset + RecordLen(h.value.payloadLen));
      }
    }
  }

  lemma LeadsPastStep(file: Bytes, offset: nat)
    requires offset <= |file|
    ensures LeadsPast(file, offset) <==>
              && offset + HEADER_LEN <= |file| && ParseHeader(file[offset..offset + HEADER_LEN]).Some?
              && var next := offset + RecordLen(ParseHeader(file[offset..offset + HEADER_LEN]).value.payloadLen);
                 next > U64_MAX || (next <= |file| && LeadsPast(file, next))
  {
    hide ParseHeader, Declares, RecordsLead;
    FirstStep(file, offset, offset);
    if LeadsPast(file, offset) {
      var at: nat, len: U64 :|
        RecordsLead(file, offset, at) && Declares(file, at, len) && at + RecordLen(len) > U64_MAX;
      FirstStep(file, offset, at);
      if at == offset {
        HasHeader(file, offset, len);
        DeclaresParses(file, offset, len);
      }
    }
    if offset + HEADER_LEN <= |file| && ParseHeader(file[offset..offset + HEADER_LEN]).Some? {
      var len := ParseHeader(file[offset..offset + HEADER_LEN]).value.payloadLen;
      var next := offset + RecordLen(len);
      DeclaresParses(file, offset, len);
      if next > U64_MAX {
        assert RecordsLead(file, offset, offset) && Declares(file, offset, len);
      } else if next <= |file| && LeadsPast(file, next) {
        var at: nat, past: U64 :|
          RecordsLead(file, next, at) && Declares(file, at, past) && at + RecordLen(past) > U64_MAX;
        FirstStep(file, offset, at);
      }
    }
  }

  lemma HasHeader(file: Bytes, at: nat, payloadLen: U64)
    requires Declares(file, at, payloadLen)
    ensures at + HEADER_LEN <= |file|
  {
  }

  /** A lone header that claims the largest length is such a file. */
  lemma ScanCanOverflow(id: BlockId)
    ensures ScanFrom(Header(id, U64_MAX), 0, 0) == Overflowed([], 0)
  {
    var h := Header(id, U64_MAX);
    ParseHeaderExact(h, id, U64_MAX);
    assert h[0..0 + HEADER_LEN] == h;
  }

  // --------------------------------------------------- what a writer produces

  datatype Rec = Rec(id: BlockId, payload: Bytes)

  function Encode(recs: seq<Rec>): (b: Bytes)
  {
    if recs == [] then [] else Record(recs[0].id, recs[0].payload) + Encode(recs[1..])
  }

  /** Where the scan should find `recs` when they start at `offset`. */
  function Layout(recs: seq<Rec>, segment: nat, offset: nat): (r: seq<Indexed>)
    ensures |r| == |recs|
    decreases |recs|
  {
    if recs == [] then []
    else
      var first := Indexed(recs[0].id, Location(segment, offset, |recs[0].payload|));
      [first] + Layout(recs[1..], segment, offset + RecordLen(|recs[0].payload|))
  }

  lemma RecordHasHeader(id: BlockId, payload: Bytes)
    requires |payload| <= U64_MAX
    ensures Record(id, payload)[..HEADER_LEN] == Header(id, |payload|)
    ensures ParseHeader(Record(id, payload)[..HEADER_LEN]) == Some(RecordHeader(id, |payload|))
    ensures Record(id, payload)[HEADER_LEN..HEADER_LEN + |payload|] == payload
  {
    assert Record(id, payload)[..HEADER_LEN] == Header(id, |payload|);
    ParseHeaderExact(Header(id, |payload|), id, |payload|);
  }

  lemma ScanRecord(file: Bytes, segment: nat, offset: nat, r: Rec)
    requires offset + RecordLen(|r.payload|) <= |file| && offset + RecordLen(|r.payload|) <= U64_MAX
    requires file[offset..offset + RecordLen(|r.payload|)] == Record(r.id, r.payload)
    ensures ScanFrom(file, segment, offset)
         == Prepend([Indexed(r.id, Location(segment, offset, |r.payload|))],
                    ScanFrom(file, segment, offset + RecordLen(|r.payload|)))
  {
    hide Record, Header, ParseHeader;
    RecordHasHeader(r.id, r.payload);
    var n := RecordLen(|r.payload|);
    assert file[offset..offset + HEADER_LEN] == file[offset..offset + n][..HEADER_LEN];
  }

  lemma PrependPrepend(a: seq<Indexed>, b: seq<Indexed>, r: ScanResult)
    ensures Prepend(a, Prepend(b, r)) == Prepend(a + b, r)
    ensures Prepend([], r) == r
  {
    assert a + (b + r.found) == (a + b) + r.found;
    assert [] + r.found == r.found;
  }

  /** Whatever follows them, records are found first, in order, at their true
      offsets; the scan then goes on right after them. */
  lemma {:induction false} ScanFindsRecords(before: Bytes, recs: seq<Rec>, after: Bytes, segment: nat)
    requires |before| + |Encode(recs)| <= U64_MAX
    ensures ScanFrom(before + Encode(recs) + after, segment, |before|)
         == Prepend(Layout(recs, segment, |before|),
                    ScanFrom(before + Encode(recs) + after, segment, |before| + |Encode(recs)|))
    decreases |recs|
  {
    hide Record, ParseHeader, ScanFrom, Prepend;
    var file := before + Encode(recs) + after;
    var rest := ScanFrom(file, segment, |before| + |Encode(recs)|);
    if recs == [] {
      PrependPrepend([], [], rest);
    } else {
      var r, first := recs[0], Record(recs[0].id, recs[0].payload);
      assert file == (before + first) + Encode(recs[1..]) + after;
      assert file[|before|..|before| + |first|] == first;
      ScanRecord(file, segment, |before|, r);
      ScanFindsRecords(before + first, recs[1..], after, segment);
      PrependPrepend([Indexed(r.id, Location(segment, |before|, |r.payload|))],
                     Layout(recs[1..], segment, |before + first|), rest);
    }
  }

  /** A record cut anywhere short of its end is not found. */
  lemma ScanStopsAtTornRecord(before: Bytes, r: Rec, cut: nat, segment: nat)
    requires cut < RecordLen(|r.payload|) && |before| + RecordLen(|r.payload|) <= U64_MAX
    ensures ScanFrom(before + Record(r.id, r.payload)[..cut], segment, |before|) == Scanned([], |before|)
  {
    hide Record, Header, ParseHeader;
    var file := before + Record(r.id, r.payload)[..cut];
    if cut >= HEADER_LEN {
      RecordHasHeader(r.id, r.payload);
      assert file[|before|..|before| + HEADER_LEN] == Record(r.id, r.payload)[..HEADER_LEN];
    }
  }

  /** How many of `recs` lie whole within the first `cut` bytes. */
  function Whole(recs: seq<Rec>, cut: nat): (k: nat)
    ensures k <= |recs|
    decreases |recs|
  {
    if recs == [] || cut < RecordLen(|recs[0].payload|) then 0
    else 1 + Whole(recs[1..], cut - RecordLen(|recs[0].payload|))
  }

  lemma {:induction false} EncodeSplit(recs: seq<Rec>, k: nat)
    requires k <= |recs|
    ensures Encode(recs) == Encode(recs[..k]) + Encode(recs[k..])
    decreases |recs|
  {
    hide Record;
    if k != 0 {
      EncodeSplit(recs[1..], k - 1);
      assert recs[..k][1..] == recs[1..][..k - 1] && recs[k..] == recs[1..][k - 1..];
    }
  }

  lemma {:induction false} WholeFits(recs: seq<Rec>, cut: nat)
    requires cut <= |Encode(recs)|
    ensures var k := Whole(recs, cut);
            && |Encode(recs[..k])| <= cut
            && (k < |recs| ==> cut < |Encode(recs[..k])| + RecordLen(|recs[k].payload|))
            && (k == |recs| ==> cut == |Encode(recs)|)
    decreases |recs|
  {
    hide Record;
    if recs != [] && cut >= RecordLen(|recs[0].payload|) {
      var k := Whole(recs, cut);
      WholeFits(recs[1..], cut - RecordLen(|recs[0].payload|));
      assert recs[..k][1..] == recs[1..][..k - 1];
    }
  }

  /** Cutting a segment at any byte, the scan recovers exactly the longest run
      of whole records and reports the exact end of valid data. */
  lemma ScanAfterCut(recs: seq<Rec>, cut: nat, segment: nat)
    requires cut <= |Encode(recs)| <= U64_MAX
    ensures var k := Whole(recs, cut);
            ScanFrom(Encode(recs)[..cut], segment, 0) == Scanned(Layout(recs[..k], segment, 0), |Encode(recs[..k])|)
  {
    hide Record, ParseHeader, Whole, Layout;
    var k := Whole(recs, cut);
    WholeFits(recs, cut);
    EncodeSplit(recs, k);
    var valid := Encode(recs[..k]);
    var torn := cut - |valid|;
    if k == |recs| {
      assert Encode(recs)[..cut] == [] + valid + [];
      ScanFindsRecords([], recs[..k], [], segment);
    } else {
      var last := Record(recs[k].id, recs[k].payload);
      assert Encode(recs)[..cut] == [] + valid + last[..torn];
      ScanFindsRecords([], recs[..k], last[..torn], segment);
      assert [] + valid + last[..torn] == valid + last[..torn];
      ScanStopsAtTornRecord(valid, recs[k], torn, segment);
    }
  }

  // -------------------------------------------------------- the working code

  /** Overwrite part of a buffer. */
  method CopyInto(buf: array<Byte>, at: nat, src: Bytes)
    requires at + |src| <= buf.Length
    modifies buf
    ensures buf[..] == old(buf[..])[..at] + src + old(buf[..])[at + |src|..]
  {
    for i := 0 to |src|
      invariant forall k :: at <= k < at + i ==> buf[k] == src[k - at]
      invariant forall k :: 0 <= k < buf.Length && !(at <= k < at + i) ==> buf[k] == old(buf[k])
    {
      buf[at + i] := src[i];
    }
  }

  /** Overwriting the start of the zeros after `done`. */
  lemma Splice(done: Bytes, src: Bytes, zeros: nat)
    requires |src| <= zeros
    ensures var buf := done + Zeros(zeros);
            buf[..|done|] + src + buf[|done| + |src|..] == done + src + Zeros(zeros - |src|)
  {
    assert (done + Zeros(zeros))[|done| + |src|..] == Zeros(zeros - |src|);
  }

  /** The buffer holds `done` and then only zeros. */
  ghost predicate Filled(buf: array<Byte>, done: Bytes)
    reads buf
  {
    |done| <= buf.Length && buf[..] == done + Zeros(buf.Length - |done|)
  }

  /** One field after what is already in the buffer. */
  method PutField(buf: array<Byte>, ghost done: Bytes, src: Bytes, at: nat)
    requires Filled(buf, done) && at == |done| && at + |src| <= buf.Length
    modifies buf
    ensures Filled(buf, done + src)
  {
    hide Zeros;
    Splice(done, src, buf.Length - at);
    CopyInto(buf, at, src);
  }

  /** Four fields of these lengths, one after the other, into a zeroed buffer. */
  method PutFields(buf: array<Byte>, a: Bytes, b: Bytes, c: Bytes, d: Bytes)
    requires |a| == 4 && |b| == 4 && |c| == 8 && |d| == 32 && HEADER_LEN <= buf.Length && Filled(buf, [])
    modifies buf
    ensures Filled(buf, a + b + c + d)
  {
    hide Filled;
    PutField(buf, [], a, 0);
    EmptyPlus(a);
    PutField(buf, a, b, 4);
    PutField(buf, a + b, c, 8);
    PutField(buf, a + b + c, d, 16);
  }

  /** The header, into a zeroed buffer. */
  method PutHeader(buf: array<Byte>, id: BlockId, payloadLen: nat)
    requires HEADER_LEN <= buf.Length && Filled(buf, [])
    modifies buf
    ensures Filled(buf, Header(id, payloadLen))
  {
    hide LE, Zeros, Header;
    PutFields(buf, MAGIC, LE(FORMAT_VERSION, 4), LE(payloadLen, 8), id.raw);
    HeaderIsFields(id, payloadLen, buf.Length - HEADER_LEN);
  }

  lemma EmptyPlus(b: Bytes)
    ensures [] + b == b
  {
  }

  lemma HeaderIsFields(id: BlockId, payloadLen: nat, more: nat)
    ensures MAGIC + LE(FORMAT_VERSION, 4) + LE(payloadLen, 8) + id.raw + Zeros(16 + more) ==
            Header(id, payloadLen) + Zeros(more)
  {
    hide LE, Zeros;
    var fields := MAGIC + LE(FORMAT_VERSION, 4) + LE(payloadLen, 8) + id.raw;
    MoreZeros(16, more);
    assert fields + (Zeros(16) + Zeros(more)) == (fields + Zeros(16)) + Zeros(more);
  }

  method EncodeRecord(id: BlockId, payload: Bytes) returns (record: Bytes)
    ensures record == Record(id, payload)
  {
    hide Zeros, RecordLen, Header;
    var total := RecordLen(|payload|);
    var buf := new Byte[total](_ => 0);
    AllZero(buf[..], total);
    EmptyPlus(buf[..]);
    PutHeader(buf, id, |payload|);
    PutField(buf, Header(id, |payload|), payload, HEADER_LEN);
    record := buf[..];
  }

  lemma AllZero(bytes: Bytes, n: nat)
    requires |bytes| == n && forall i :: 0 <= i < n ==> bytes[i] == 0
    ensures bytes == Zeros(n)
  {
  }

  lemma MoreZeros(a: nat, b: nat)
    ensures Zeros(a + b) == Zeros(a) + Zeros(b)
  {
  }

  method Scan(file: Bytes, segment: nat) returns (r: ScanResult)
    ensures r == ScanFrom(file, segment, 0)
  {
    hide ParseHeader, Prepend;
    var offset, found := 0, [];
    PrependPrepend([], [], ScanFrom(file, segment, 0));
    while offset + HEADER_LEN <= |file|
      invariant offset <= |file|
      invariant Prepend(found, ScanFrom(file, segment, offset)) == ScanFrom(file, segment, 0)
      decreases |file| - offset
    {
      var header := ParseHeader(file[offset..offset + HEADER_LEN]);
      if header.None? {
        break;
      }
      var total := RecordLen(header.value.payloadLen);
      if offset + total > U64_MAX {
        return Prepend(found, Overflowed([], offset));
      }
      if offset + total > |file| {
        break;
      }
      var hit := Indexed(header.value.id, Location(segment, offset, header.value.payloadLen));
      PrependPrepend(found, [hit], ScanFrom(file, segment, offset + total));
      found := found + [hit];
      offset := offset + total;
    }
    r := Prepend(found, Scanned([], offset));
  }
}
