/** Reads of a file opened for direct I/O: the whole window of pages that covers
    the request is read, so a request inside the file fails when its last page is
    not all there. */
module DirectReads {
  import opened Core
  import opened Encoding
  import opened Segment
  import opened StoreLayout
  import opened ColdStore
  import opened Coalescing

  function AlignDown(n: nat): (r: nat)
    ensures r % BLOCK_ALIGN == 0 && r <= n < r + BLOCK_ALIGN
  {
    n / BLOCK_ALIGN * BLOCK_ALIGN
  }

  /** The window is at least one page, like every zeroed buffer. */
  function WindowEnd(offset: nat, n: nat): (end: nat)
    ensures offset + n <= end
  {
    AlignDown(offset) + BufferLen(AlignUp(offset + n) - AlignDown(offset))
  }

  function DirectRead(file: Bytes, offset: nat, n: nat): (r: Option<Bytes>)
  {
    if WindowEnd(offset, n) > |file| then None
    else
      var window, skip := file[AlignDown(offset)..WindowEnd(offset, n)], offset - AlignDown(offset);
      Some(window[skip..skip + n])
  }

  /** Either nothing, because the window crosses the end, or what was asked for. */
  lemma DirectReadIff(file: Bytes, offset: nat, n: nat)
    ensures DirectRead(file, offset, n) ==
            if WindowEnd(offset, n) > |file| then None else Some(file[offset..offset + n])
  {
    if WindowEnd(offset, n) <= |file| {
      SliceOfSlice(file, AlignDown(offset), WindowEnd(offset, n), offset - AlignDown(offset),
                   offset - AlignDown(offset) + n);
    }
  }

  /** Of a request that starts a page, or lies inside a record, the window ends
      at the next page boundary. */
  lemma WindowOf(at: nat, skip: nat, n: nat)
    requires at % BLOCK_ALIGN == 0 && skip + n > 0 && skip < BLOCK_ALIGN
    ensures WindowEnd(at + skip, n) == at + AlignUp(skip + n)
  {
    assert AlignDown(at + skip) == at;
    assert AlignUp(at + skip + n) == at + AlignUp(skip + n);
  }

  /** The payload of any whole record is read, and is what a plain read gives. */
  lemma DirectPayload(file: Bytes, loc: Location)
    requires loc.offset % BLOCK_ALIGN == 0 && loc.offset + RecordLen(loc.payloadLen) <= |file|
    ensures DirectRead(file, loc.offset + HEADER_LEN, loc.payloadLen) == Some(ReadAt(file, loc))
  {
    WindowOf(loc.offset, HEADER_LEN, loc.payloadLen);
    DirectReadIff(file, loc.offset + HEADER_LEN, loc.payloadLen);
  }

  // -------------------------------------------------------------------- scan

  /** The scan over direct reads; `None` when the read of a header fails. */
  function DirectScanFrom(file: Bytes, segment: nat, offset: nat): (r: Option<ScanResult>)
    requires offset <= |file|
    decreases |file| - offset
  {
    if offset + HEADER_LEN > |file| then Some(Scanned([], offset))
    else
      var header := DirectRead(file, offset, HEADER_LEN);
      if header.None? then None
      else match ParseHeader(header.value)
        case None => Some(Scanned([], offset))
        case Some(h) =>
          var next := offset + RecordLen(h.payloadLen);
          if next > U64_MAX then Some(Overflowed([], offset))
          else if next > |file| then Some(Scanned([], offset))
          else
            var rest := DirectScanFrom(file, segment, next);
            if rest.None? then None
            else Some(Prepend([Indexed(h.id, Location(segment, offset, h.payloadLen))], rest.value))
  }

  /** What follows the last whole record holds a header but not a page. */
  predicate CutInPage(file: Bytes, end: nat)
  {
    end + HEADER_LEN <= |file| < end + BLOCK_ALIGN
  }

  lemma HeaderRead(file: Bytes, offset: nat)
    requires offset % BLOCK_ALIGN == 0 && offset + HEADER_LEN <= |file|
    ensures DirectRead(file, offset, HEADER_LEN) ==
            if CutInPage(file, offset) then None else Some(file[offset..offset + HEADER_LEN])
  {
    WindowOf(offset, 0, HEADER_LEN);
    DirectReadIff(file, offset, HEADER_LEN);
  }

  /** For every file: the direct scan fails exactly when the plain scan ends at a
      page that is cut after its header, and otherwise gives the same. */
  lemma {:induction false} DirectScanIff(file: Bytes, segment: nat, offset: nat)
    requires offset <= |file| && offset % BLOCK_ALIGN == 0
    ensures var plain := ScanFrom(file, segment, offset);
            DirectScanFrom(file, segment, offset) == if CutInPage(file, plain.end) then None else Some(plain)
    decreases |file| - offset
  {
    hide DirectRead, ParseHeader, RecordLen;
    if offset + HEADER_LEN <= |file| {
      HeaderRead(file, offset);
      var h := ParseHeader(file[offset..offset + HEADER_LEN]);
      if h.Some? {
        var next := offset + RecordLen(h.value.payloadLen);
        if next <= U64_MAX && next <= |file| {
          DirectScanIff(file, segment, next);
        }
      }
    }
  }

  /** Of a segment cut at any byte. */
  lemma DirectScanAfterCut(recs: seq<Rec>, cut: nat, segment: nat)
    requires cut <= |Encode(recs)| <= U64_MAX
    ensures var k := Whole(recs, cut);
            DirectScanFrom(Encode(recs)[..cut], segment, 0) ==
            if HEADER_LEN <= cut - |Encode(recs[..k])| < BLOCK_ALIGN then None
            else Some(Scanned(Layout(recs[..k], segment, 0), |Encode(recs[..k])|))
  {
    hide ScanFrom, DirectScanFrom, Encode, Layout, Whole;
    ScanAfterCut(recs, cut, segment);
    DirectScanIff(Encode(recs)[..cut], segment, 0);
  }

  /** A record torn right after its header: the plain scan drops it, the direct
      scan fails, and with it the reopen. */
  lemma TornPageStopsDirectScan(r: Rec, segment: nat)
    requires RecordLen(|r.payload|) <= U64_MAX
    ensures ScanFrom(Record(r.id, r.payload)[..HEADER_LEN], segment, 0) == Scanned([], 0)
    ensures DirectScanFrom(Record(r.id, r.payload)[..HEADER_LEN], segment, 0) == None
  {
    hide ScanFrom, DirectScanFrom, Record;
    assert [] + Record(r.id, r.payload)[..HEADER_LEN] == Record(r.id, r.payload)[..HEADER_LEN];
    ScanStopsAtTornRecord([], r, HEADER_LEN, segment);
    DirectScanIff(Record(r.id, r.payload)[..HEADER_LEN], segment, 0);
  }

  // -------------------------------------------------------------- whole stores

  /** Every sealed segment scans the same over direct reads; the active one does
      exactly when its last page is not cut after a header, as after a failed
      append it may be. */
  lemma DirectRestartIff(store: BlockStore, i: nat)
    requires store.Valid() && i < |store.disk|
    ensures var plain := ScanFrom(store.disk[i], i, 0);
            DirectScanFrom(store.disk[i], i, 0) == if CutInPage(store.disk[i], plain.end) then None else Some(plain)
    ensures CutInPage(store.disk[i], ScanFrom(store.disk[i], i, 0).end) ==> i == |store.disk| - 1 && store.writeFailed
  {
    hide ScanFrom, DirectScanFrom, Encode, Layout, Holds, HashesOk;
    DirectScanIff(store.disk[i], i, 0);
    if i < |store.disk| - 1 || !store.writeFailed {
      EndOfWhole(store, i);
    }
  }

  lemma EndOfWhole(store: BlockStore, i: nat)
    requires store.Valid() && i < |store.disk| && (i < |store.disk| - 1 || !store.writeFailed)
    ensures ScanFrom(store.disk[i], i, 0).end == |store.disk[i]|
  {
    hide ScanFrom, Encode, Layout, Holds, HashesOk, Whole;
    if !store.writeFailed { FlightIntact(store.hash, store.disk, store.recs, store.index, store.model); }
    var rs := store.recs[i];
    ScanOfWhole(rs, i);
  }

  lemma ScanOfWhole(rs: seq<Rec>, segment: nat)
    requires |Encode(rs)| <= U64_MAX
    ensures ScanFrom(Encode(rs), segment, 0).end == |Encode(rs)|
  {
    hide ScanFrom, Encode, Layout;
    assert [] + Encode(rs) + [] == Encode(rs);
    ScanFindsRecords([], rs, [], segment);
    ScanAtEnd(Encode(rs), segment);
  }

  lemma ScanAtEnd(file: Bytes, segment: nat)
    ensures ScanFrom(file, segment, |file|) == Scanned([], |file|)
  {
  }
}
