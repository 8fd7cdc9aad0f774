/** The journal reader: bounded batches in journal order, and the cursors that resume after them. */
module Journal {
  import opened Net

  datatype Service = Crawler | Web

  /** The fields of a journal entry the reader looks at, decoded. */
  datatype Raw = Raw(cursor: string, uid: string, unit: string, identifier: string, message: string)

  datatype Record = Record(cursor: string, service: Service, message: string)

  /** A line of journalctl output: blank, not JSON, or an entry with the size of its line. */
  datatype Line = Blank | Garbage | Json(raw: Raw, size: nat)

  // ------------------------------------------------------------ eligibility

  function UnitService(unit: string): Option<Service>
  {
    if unit == "btfind.service" then Some(Crawler) else if unit == "btfind-web.service" then Some(Web) else None
  }

  function IdentifierService(identifier: string): Option<Service>
  {
    if identifier == "btfind-crawler" then Some(Crawler) else if identifier == "btfind-web" then Some(Web) else None
  }

  function ServiceFor(raw: Raw, uid: string): Option<Service>
  {
    if raw.uid != "" && raw.uid != uid then None
    else if raw.unit != "" then
      var service := UnitService(raw.unit);
      if service.None? then None
      else if raw.identifier != "" && IdentifierService(raw.identifier) != service then None
      else service
    else IdentifierService(raw.identifier)
  }

  function Normalise(raw: Raw, uid: string): Option<Record>
  {
    if raw.cursor == "" then None
    else
      match ServiceFor(raw, uid)
      case None => None
      case Some(service) => Some(Record(raw.cursor, service, raw.message))
  }

  predicate HasCursor(line: Line)
  {
    line.Json? && line.raw.cursor != ""
  }

  function RecordOf(line: Line, uid: string): Option<Record>
  {
    if line.Json? then Normalise(line.raw, uid) else None
  }

  /** The eligible records of lines, in order. */
  function Eligible(lines: seq<Line>, uid: string): seq<Record>
  {
    if |lines| == 0 then []
    else
      var before, last := Eligible(lines[..|lines| - 1], uid), RecordOf(lines[|lines| - 1], uid);
      if last.Some? then before + [last.value] else before
  }

  /** The size of the lines of the eligible records. */
  function Weight(lines: seq<Line>, uid: string): nat
  {
    if |lines| == 0 then 0
    else
      var last := lines[|lines| - 1];
      Weight(lines[..|lines| - 1], uid) + if RecordOf(last, uid).Some? then last.size else 0
  }

  /** The entry is one of this service and user: its unit says so and its identifier does not deny it, or it has no
      unit and its identifier says so. */
  predicate WrittenBy(raw: Raw, service: Service, uid: string)
  {
    && (raw.uid == "" || raw.uid == uid)
    && match service
       case Crawler => || (raw.unit == "btfind.service" && (raw.identifier == "" || raw.identifier == "btfind-crawler"))
                       || (raw.unit == "" && raw.identifier == "btfind-crawler")
       case Web => || (raw.unit == "btfind-web.service" && (raw.identifier == "" || raw.identifier == "btfind-web"))
                   || (raw.unit == "" && raw.identifier == "btfind-web")
  }

  /** The line is an entry with a cursor, and r is its cursor and message under the service that wrote it. */
  predicate Carries(line: Line, uid: string, r: Record)
  {
    line.Json? && line.raw.cursor != "" && r.cursor == line.raw.cursor && r.message == line.raw.message
    && WrittenBy(line.raw, r.service, uid)
  }

  lemma RecordExact(line: Line, uid: string, r: Record)
    ensures RecordOf(line, uid) == Some(r) <==> Carries(line, uid, r)
  {
  }

  /** Line by line: which unit and identifier a record's entry has, and that no such entry is left out. */
  lemma {:induction false} EligibleExact(lines: seq<Line>, uid: string, r: Record)
    ensures r in Eligible(lines, uid) <==> exists i :: 0 <= i < |lines| && Carries(lines[i], uid, r)
  {
    hide RecordOf, Carries;
    if |lines| > 0 {
      var init, last := lines[..|lines| - 1], lines[|lines| - 1];
      EligibleExact(init, uid, r);
      RecordExact(last, uid, r);
      assert forall i | 0 <= i < |init| :: init[i] == lines[i];
    }
  }

  lemma {:induction false} EligibleConcat(a: seq<Line>, b: seq<Line>, uid: string)
    ensures Eligible(a + b, uid) == Eligible(a, uid) + Eligible(b, uid)
    ensures Weight(a + b, uid) == Weight(a, uid) + Weight(b, uid)
  {
    if |b| == 0 {
      assert a + b == a;
    } else {
      EligibleConcat(a, b[..|b| - 1], uid);
      assert (a + b)[..|a + b| - 1] == a + b[..|b| - 1];
    }
  }

  lemma EligibleSlice(lines: seq<Line>, i: nat, j: nat, k: nat, uid: string)
    requires i <= j <= k <= |lines|
    ensures Eligible(lines[i..k], uid) == Eligible(lines[i..j], uid) + Eligible(lines[j..k], uid)
    ensures Weight(lines[i..k], uid) == Weight(lines[i..j], uid) + Weight(lines[j..k], uid)
  {
    assert lines[i..k] == lines[i..j] + lines[j..k];
    EligibleConcat(lines[i..j], lines[j..k], uid);
  }

  lemma EligibleNext(lines: seq<Line>, i: nat, j: nat, uid: string)
    requires i <= j < |lines|
    ensures Eligible(lines[i..j + 1], uid)
            == if RecordOf(lines[j], uid).Some? then Eligible(lines[i..j], uid) + [RecordOf(lines[j], uid).value]
               else Eligible(lines[i..j], uid)
    ensures Weight(lines[i..j + 1], uid)
            == Weight(lines[i..j], uid) + if RecordOf(lines[j], uid).Some? then lines[j].size else 0
  {
    assert lines[i..j + 1][..j - i] == lines[i..j];
  }

  // ------------------------------------------------------------ batches

  datatype Batch = Batch(records: seq<Record>, cursor: string)

  datatype Bounds = Bounds(batches: nat, records: nat, bytes: nat)

  function Start(ends: seq<nat>, i: nat): nat
    requires i <= |ends|
  {
    if i == 0 then 0 else ends[i - 1]
  }

  /** Batch i holds exactly the eligible records of the lines from the end of the batch before it to its own
      end, and its cursor is that of the line it ends with. */
  ghost predicate Slices(lines: seq<Line>, uid: string, batches: seq<Batch>, ends: seq<nat>, i: nat)
    requires i < |batches| == |ends|
  {
    && Start(ends, i) < ends[i] <= |lines|
    && HasCursor(lines[ends[i] - 1]) && batches[i].cursor == lines[ends[i] - 1].raw.cursor
    && batches[i].records == Eligible(lines[Start(ends, i)..ends[i]], uid)
  }

  ghost predicate Reads(lines: seq<Line>, uid: string, batches: seq<Batch>, ends: seq<nat>)
  {
    |batches| == |ends| && forall i: nat | i < |batches| :: Slices(lines, uid, batches, ends, i)
  }

  /** Within the bounds, or a single record. */
  ghost predicate Bounded(lines: seq<Line>, uid: string, bounds: Bounds, batches: seq<Batch>, ends: seq<nat>, i: nat)
    requires i < |batches| == |ends| && Start(ends, i) <= ends[i] <= |lines|
  {
    && |batches[i].records| <= Max(1, bounds.records)
    && (|batches[i].records| <= 1 || Weight(lines[Start(ends, i)..ends[i]], uid) <= bounds.bytes)
  }

  ghost predicate AllBounded(lines: seq<Line>, uid: string, bounds: Bounds, batches: seq<Batch>, ends: seq<nat>)
  {
    |batches| == |ends| && forall i: nat | i < |batches| ::
      Start(ends, i) <= ends[i] <= |lines| && Bounded(lines, uid, bounds, batches, ends, i)
  }

  function Records(batches: seq<Batch>): seq<Record>
  {
    if |batches| == 0 then [] else Records(batches[..|batches| - 1]) + batches[|batches| - 1].records
  }

  /** Stopping after any number of batches and resuming at the last cursor reads exactly the rest: the
      records so far and the eligible ones still to come are all the eligible ones, in order. */
  lemma {:induction false} ResumeExact(lines: seq<Line>, uid: string, batches: seq<Batch>, ends: seq<nat>, i: nat)
    requires Reads(lines, uid, batches, ends) && i <= |batches|
    ensures Start(ends, i) <= |lines|
    ensures Eligible(lines, uid) == Records(batches[..i]) + Eligible(lines[Start(ends, i)..], uid)
  {
    hide Eligible;
    if i == 0 {
      assert lines[0..] == lines;
    } else {
      ResumeExact(lines, uid, batches, ends, i - 1);
      assert Slices(lines, uid, batches, ends, i - 1);
      EligibleSlice(lines, Start(ends, i - 1), ends[i - 1], |lines|, uid);
      assert lines[Start(ends, i - 1)..|lines|] == lines[Start(ends, i - 1)..];
      assert lines[ends[i - 1]..|lines|] == lines[ends[i - 1]..];
      assert batches[..i][..i - 1] == batches[..i - 1];
    }
  }

  lemma AppendBatch(lines: seq<Line>, uid: string, bounds: Bounds, batches: seq<Batch>, ends: seq<nat>, b: Batch, end: nat)
    requires Reads(lines, uid, batches, ends) && AllBounded(lines, uid, bounds, batches, ends)
    requires Start(ends, |ends|) < end <= |lines| && HasCursor(lines[end - 1]) && b.cursor == lines[end - 1].raw.cursor
    requires b.records == Eligible(lines[Start(ends, |ends|)..end], uid)
    requires |b.records| <= Max(1, bounds.records)
    requires |b.records| <= 1 || Weight(lines[Start(ends, |ends|)..end], uid) <= bounds.bytes
    ensures Reads(lines, uid, batches + [b], ends + [end]) && AllBounded(lines, uid, bounds, batches + [b], ends + [end])
  {
    hide Eligible, Weight, RecordOf, Slices, Bounded;
    var bs, es := batches + [b], ends + [end];
    forall i: nat | i < |bs|
      ensures Slices(lines, uid, bs, es, i)
      ensures Start(es, i) <= es[i] <= |lines| && Bounded(lines, uid, bounds, bs, es, i)
    {
      if i < |batches| {
        SameBatch(lines, uid, bounds, batches, ends, b, end, i);
      } else {
        NewBatch(lines, uid, bounds, batches, ends, b, end);
      }
    }
  }

  lemma SameBatch(lines: seq<Line>, uid: string, bounds: Bounds, batches: seq<Batch>, ends: seq<nat>, b: Batch, end: nat, i: nat)
    requires i < |batches| == |ends| && Slices(lines, uid, batches, ends, i) && Bounded(lines, uid, bounds, batches, ends, i)
    ensures Slices(lines, uid, batches + [b], ends + [end], i)
    ensures Bounded(lines, uid, bounds, batches + [b], ends + [end], i)
  {
    hide Eligible, Weight;
    assert Start(ends + [end], i) == Start(ends, i);
  }

  lemma NewBatch(lines: seq<Line>, uid: string, bounds: Bounds, batches: seq<Batch>, ends: seq<nat>, b: Batch, end: nat)
    requires |batches| == |ends|
    requires Start(ends, |ends|) < end <= |lines| && HasCursor(lines[end - 1]) && b.cursor == lines[end - 1].raw.cursor
    requires b.records == Eligible(lines[Start(ends, |ends|)..end], uid)
    requires |b.records| <= Max(1, bounds.records)
    requires |b.records| <= 1 || Weight(lines[Start(ends, |ends|)..end], uid) <= bounds.bytes
    ensures Slices(lines, uid, batches + [b], ends + [end], |batches|)
    ensures Bounded(lines, uid, bounds, batches + [b], ends + [end], |batches|)
  {
    hide Eligible, Weight;
    assert Start(ends + [end], |ends|) == Start(ends, |ends|);
  }

  /** No line repeats the cursor the reader starts after. */
  ghost predicate After(lines: seq<Line>, cursor: Option<string>)
  {
    forall i | 0 <= i < |lines| :: HasCursor(lines[i]) ==> cursor != Some(lines[i].raw.cursor)
  }

  /** What the reader holds: the batch since start, where its last record ends, where the last cursor was. */
  ghost predicate Held(lines: seq<Line>, uid: string, bounds: Bounds, start: nat, i: nat, batch: seq<Record>, bytes: nat,
                       batchEnd: nat, batchCursor: Option<string>, lastEnd: nat, lastCursor: Option<string>, cursor: Option<string>)
  {
    && start <= batchEnd <= lastEnd <= i <= |lines|
    && batch == Eligible(lines[start..batchEnd], uid) && bytes == Weight(lines[start..batchEnd], uid)
    && Eligible(lines[batchEnd..i], uid) == [] && Weight(lines[batchEnd..i], uid) == 0
    && (if batch == [] then batchEnd == start
        else start < batchEnd && HasCursor(lines[batchEnd - 1]) && batchCursor == Some(lines[batchEnd - 1].raw.cursor))
    && (if lastEnd == 0 then lastCursor == cursor
        else HasCursor(lines[lastEnd - 1]) && lastCursor == Some(lines[lastEnd - 1].raw.cursor))
    && (forall k | lastEnd <= k < i :: !HasCursor(lines[k]))
    && |batch| <= Max(1, bounds.records) && (|batch| <= 1 || bytes <= bounds.bytes)
  }

  lemma HeldSkip(lines: seq<Line>, uid: string, bounds: Bounds, start: nat, i: nat, batch: seq<Record>, bytes: nat,
                 batchEnd: nat, batchCursor: Option<string>, lastEnd: nat, lastCursor: Option<string>, cursor: Option<string>)
    requires Held(lines, uid, bounds, start, i, batch, bytes, batchEnd, batchCursor, lastEnd, lastCursor, cursor)
    requires i < |lines| && RecordOf(lines[i], uid).None?
    ensures !HasCursor(lines[i])
            ==> Held(lines, uid, bounds, start, i + 1, batch, bytes, batchEnd, batchCursor, lastEnd, lastCursor, cursor)
    ensures HasCursor(lines[i])
            ==> Held(lines, uid, bounds, start, i + 1, batch, bytes, batchEnd, batchCursor, i + 1, Some(lines[i].raw.cursor), cursor)
  {
    hide Eligible, Weight, RecordOf;
    EligibleNext(lines, batchEnd, i, uid);
  }

  lemma HeldAppend(lines: seq<Line>, uid: string, bounds: Bounds, start: nat, i: nat, batch: seq<Record>, bytes: nat,
                   batchEnd: nat, batchCursor: Option<string>, lastEnd: nat, lastCursor: Option<string>, cursor: Option<string>)
    requires Held(lines, uid, bounds, start, i, batch, bytes, batchEnd, batchCursor, lastEnd, lastCursor, cursor)
    requires i < |lines| && RecordOf(lines[i], uid).Some?
    requires batch == [] || (|batch| < bounds.records && bytes + lines[i].size <= bounds.bytes)
    ensures HasCursor(lines[i])
    ensures Held(lines, uid, bounds, start, i + 1, batch + [RecordOf(lines[i], uid).value], bytes + lines[i].size, i + 1,
                 Some(lines[i].raw.cursor), i + 1, Some(lines[i].raw.cursor), cursor)
  {
    assert HasCursor(lines[i]);
    hide Eligible, Weight, RecordOf;
    EligibleSlice(lines, start, batchEnd, i, uid);
    EligibleNext(lines, start, i, uid);
    NoLines(lines, i + 1, uid);
  }

  lemma NoLines(lines: seq<Line>, i: nat, uid: string)
    requires i <= |lines|
    ensures Eligible(lines[i..i], uid) == [] && Weight(lines[i..i], uid) == 0
  {
  }

  lemma HeldFresh(lines: seq<Line>, uid: string, bounds: Bounds, start: nat, i: nat, batch: seq<Record>, bytes: nat,
                  batchEnd: nat, batchCursor: Option<string>, lastEnd: nat, lastCursor: Option<string>, cursor: Option<string>)
    requires Held(lines, uid, bounds, start, i, batch, bytes, batchEnd, batchCursor, lastEnd, lastCursor, cursor)
    ensures Held(lines, uid, bounds, batchEnd, i, [], 0, batchEnd, cursor, lastEnd, lastCursor, cursor)
  {
    hide Eligible, Weight;
    NoLines(lines, batchEnd, uid);
  }

  /** read_batches: the batches of one pass over the lines after cursor. Either the batch limit was reached,
      or no line with a cursor is left. */
  method ReadBatches(lines: seq<Line>, uid: string, cursor: Option<string>, bounds: Bounds)
    returns (batches: seq<Batch>, ghost ends: seq<nat>)
    requires After(lines, cursor)
    ensures Reads(lines, uid, batches, ends) && AllBounded(lines, uid, bounds, batches, ends)
    ensures |batches| <= Max(1, bounds.batches)
    ensures |batches| == Max(1, bounds.batches) || forall k | Start(ends, |ends|) <= k < |lines| :: !HasCursor(lines[k])
  {
    hide Eligible, Weight, RecordOf, Held, Reads, AllBounded, HasCursor;
    batches, ends := [], [];
    var batch, batchBytes: nat, batchCursor, lastRawCursor := [], 0, cursor, cursor;
    ghost var start: nat, batchEnd: nat, lastEnd: nat := 0, 0, 0;
    NothingRead(lines, uid, bounds, cursor);
    var i := 0;
    while i < |lines|
      invariant 0 <= i <= |lines| && start == Start(ends, |ends|)
      invariant Reads(lines, uid, batches, ends) && AllBounded(lines, uid, bounds, batches, ends)
      invariant Held(lines, uid, bounds, start, i, batch, batchBytes, batchEnd, batchCursor, lastEnd, lastRawCursor, cursor)
      invariant |ends| == |batches| && (|batches| == 0 || |batches| < bounds.batches)
      invariant |batches| > 0 ==> batch != []
    {
      var record := RecordOf(lines[i], uid);
      if record.None? {
        HeldSkip(lines, uid, bounds, start, i, batch, batchBytes, batchEnd, batchCursor, lastEnd, lastRawCursor, cursor);
        if HasCursor(lines[i]) {
          lastRawCursor := Cursor(lines[i]);
          lastEnd := i + 1;
        }
        i := i + 1;
        continue;
      }
      var size := SizeOf(lines[i], uid);
      if batch != [] && (|batch| >= bounds.records || batchBytes + size > bounds.bytes) {
        HeldBatch(lines, uid, bounds, start, i, batch, batchBytes, batchEnd, batchCursor, lastEnd, lastRawCursor, cursor);
        AppendBatch(lines, uid, bounds, batches, ends, Batch(batch, batchCursor.value), batchEnd);
        batches := batches + [Batch(batch, batchCursor.value)];
        ends := ends + [batchEnd];
        if |batches| >= bounds.batches {
          return;
        }
        HeldFresh(lines, uid, bounds, start, i, batch, batchBytes, batchEnd, batchCursor, lastEnd, lastRawCursor, cursor);
        start := batchEnd;
        batch, batchBytes, batchCursor := [], 0, cursor;
      }
      HeldAppend(lines, uid, bounds, start, i, batch, batchBytes, batchEnd, batchCursor, lastEnd, lastRawCursor, cursor);
      batch := batch + [record.value];
      batchBytes := batchBytes + size;
      batchCursor := Cursor(lines[i]);
      lastRawCursor := batchCursor;
      batchEnd, lastEnd := i + 1, i + 1;
      i := i + 1;
    }
    HeldEnd(lines, uid, bounds, start, batch, batchBytes, batchEnd, batchCursor, lastEnd, lastRawCursor, cursor);
    if batch != [] || lastRawCursor != cursor {
      AppendBatch(lines, uid, bounds, batches, ends, Batch(batch, lastRawCursor.value), lastEnd);
      batches := batches + [Batch(batch, lastRawCursor.value)];
      ends := ends + [lastEnd];
    }
  }

  function Cursor(line: Line): Option<string>
  {
    if HasCursor(line) then Some(line.raw.cursor) else None
  }

  function SizeOf(line: Line, uid: string): nat
    requires RecordOf(line, uid).Some?
  {
    line.size
  }

  lemma NothingRead(lines: seq<Line>, uid: string, bounds: Bounds, cursor: Option<string>)
    ensures Reads(lines, uid, [], []) && AllBounded(lines, uid, bounds, [], [])
    ensures Held(lines, uid, bounds, 0, 0, [], 0, 0, cursor, 0, cursor, cursor)
  {
  }

  lemma HeldBatch(lines: seq<Line>, uid: string, bounds: Bounds, start: nat, i: nat, batch: seq<Record>, bytes: nat,
                  batchEnd: nat, batchCursor: Option<string>, lastEnd: nat, lastCursor: Option<string>, cursor: Option<string>)
    requires Held(lines, uid, bounds, start, i, batch, bytes, batchEnd, batchCursor, lastEnd, lastCursor, cursor) && batch != []
    ensures start < batchEnd <= |lines| && HasCursor(lines[batchEnd - 1]) && batchCursor == Some(lines[batchEnd - 1].raw.cursor)
    ensures batch == Eligible(lines[start..batchEnd], uid) && |batch| <= Max(1, bounds.records)
    ensures |batch| <= 1 || Weight(lines[start..batchEnd], uid) <= bounds.bytes
  {
    hide Eligible, Weight;
  }

  lemma HeldEnd(lines: seq<Line>, uid: string, bounds: Bounds, start: nat, batch: seq<Record>, bytes: nat,
                batchEnd: nat, batchCursor: Option<string>, lastEnd: nat, lastCursor: Option<string>, cursor: Option<string>)
    requires Held(lines, uid, bounds, start, |lines|, batch, bytes, batchEnd, batchCursor, lastEnd, lastCursor, cursor)
    requires After(lines, cursor)
    ensures lastEnd <= |lines| && forall k | lastEnd <= k < |lines| :: !HasCursor(lines[k])
    ensures batch == [] && lastCursor == cursor ==> lastEnd == 0
    ensures batch != [] || (lastCursor != cursor && start == 0)
            ==> && start < lastEnd && HasCursor(lines[lastEnd - 1]) && lastCursor == Some(lines[lastEnd - 1].raw.cursor)
                && batch == Eligible(lines[start..lastEnd], uid) && |batch| <= Max(1, bounds.records)
                && (|batch| <= 1 || Weight(lines[start..lastEnd], uid) <= bounds.bytes)
  {
    hide Eligible, Weight;
    EligibleSlice(lines, batchEnd, lastEnd, |lines|, uid);
    EligibleSlice(lines, start, batchEnd, lastEnd, uid);
  }
}
