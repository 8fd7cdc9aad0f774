/** The log exporter: batches are shipped in chunks, and the cursor is saved only after every chunk of its
    batch was acknowledged; passes may fail or crash anywhere. */
module Exporter {
  import opened Net
  import opened Seqs
  import opened Journal

  // ------------------------------------------------------------ grouping and chunks

  function OfService(records: seq<Record>, service: Service): seq<Record>
  {
    if |records| == 0 then []
    else
      var before, last := OfService(records[..|records| - 1], service), records[|records| - 1];
      if last.service == service then before + [last] else before
  }

  /** entries_by_service: services in order of first appearance, each with its records in order. */
  method EntriesByService(records: seq<Record>) returns (order: seq<Service>, groups: map<Service, seq<Record>>)
    ensures NoDup(order) && (forall s :: s in order <==> s in groups)
    ensures forall s | s in groups :: groups[s] == OfService(records, s)
    ensures forall r | r in records :: r.service in groups
  {
    order, groups := [], map[];
    var i := 0;
    while i < |records|
      invariant 0 <= i <= |records| && NoDup(order) && (forall s :: s in order <==> s in groups)
      invariant forall s: Service :: if s in groups then groups[s] == OfService(records[..i], s) else OfService(records[..i], s) == []
      invariant forall r | r in records[..i] :: r.service in groups
    {
      var r := records[i];
      assert records[..i + 1][..i] == records[..i];
      assert records[..i + 1] == records[..i] + [r];
      if r.service !in groups {
        order := order + [r.service];
        groups := groups[r.service := [r]];
      } else {
        groups := groups[r.service := groups[r.service] + [r]];
      }
      i := i + 1;
    }
    assert records[..|records|] == records;
  }

  // ------------------------------------------------------------ what has been exported

  ghost predicate AckedBetween(journal: seq<Line>, uid: string, start: nat, end: nat, acked: seq<Record>)
    requires start <= end <= |journal|
  {
    forall r | r in Eligible(journal[start..end], uid) :: r in acked
  }

  ghost predicate StandsAt(journal: seq<Line>, cursor: string, p: nat)
  {
    p < |journal| && HasCursor(journal[p]) && journal[p].raw.cursor == cursor
  }

  /** Every eligible record from start up to the saved cursor has been acknowledged. */
  ghost predicate Covered(journal: seq<Line>, uid: string, saved: Option<string>, start: nat, acked: seq<Record>)
  {
    saved.Some? ==> exists p: nat :: CoveredTo(journal, uid, saved.value, start, acked, p)
  }

  ghost predicate CoveredTo(journal: seq<Line>, uid: string, cursor: string, start: nat, acked: seq<Record>, p: nat)
  {
    StandsAt(journal, cursor, p) && start <= p + 1 && AckedBetween(journal, uid, start, p + 1, acked)
  }

  /** Nothing else was sent. */
  ghost predicate OnlyEligible(journal: seq<Line>, uid: string, acked: seq<Record>)
  {
    forall r | r in acked :: r in Eligible(journal, uid)
  }

  ghost predicate UniqueCursors(journal: seq<Line>)
  {
    forall i, j | 0 <= i < j < |journal| :: HasCursor(journal[i]) && HasCursor(journal[j]) ==> journal[i].raw.cursor != journal[j].raw.cursor
  }

  lemma CoveredGrows(journal: seq<Line>, more: seq<Line>, uid: string, saved: Option<string>, start: nat, acked: seq<Record>)
    requires Covered(journal, uid, saved, start, acked) && OnlyEligible(journal, uid, acked) && journal <= more
    ensures Covered(more, uid, saved, start, acked) && OnlyEligible(more, uid, acked)
  {
    hide Eligible;
    EligibleConcat(journal, more[|journal|..], uid);
    assert more == journal + more[|journal|..];
    if saved.Some? {
      var p: nat :| CoveredTo(journal, uid, saved.value, start, acked, p);
      assert more[start..p + 1] == journal[start..p + 1];
      assert CoveredTo(more, uid, saved.value, start, acked, p);
    }
  }

  lemma AckedMore(journal: seq<Line>, uid: string, saved: Option<string>, start: nat, acked: seq<Record>, more: seq<Record>)
    requires Covered(journal, uid, saved, start, acked)
    ensures Covered(journal, uid, saved, start, acked + more)
  {
    if saved.Some? {
      var p: nat :| CoveredTo(journal, uid, saved.value, start, acked, p);
      assert CoveredTo(journal, uid, saved.value, start, acked + more, p);
    }
  }

  /** One batch further: what was acknowledged up to a, and the batch from a to b. */
  lemma AckedFurther(journal: seq<Line>, uid: string, start: nat, a: nat, b: nat, acked: seq<Record>, records: seq<Record>)
    requires start <= a <= b <= |journal| && AckedBetween(journal, uid, start, a, acked)
    requires records == Eligible(journal[a..b], uid) && forall r | r in records :: r in acked
    ensures AckedBetween(journal, uid, start, b, acked)
  {
    EligibleSlice(journal, start, a, b, uid);
  }

  /** The records of a batch are eligible records of the journal. */
  lemma BatchEligible(journal: seq<Line>, uid: string, from: nat, batches: seq<Batch>, ends: seq<nat>, i: nat)
    requires from <= |journal| && Reads(journal[from..], uid, batches, ends) && i < |batches|
    ensures var a, b := from + Start(ends, i), from + ends[i];
            && from <= a < b <= |journal| && StandsAt(journal, batches[i].cursor, b - 1)
            && batches[i].records == Eligible(journal[a..b], uid)
            && (forall r | r in batches[i].records :: r in Eligible(journal, uid))
  {
    hide Eligible;
    assert Slices(journal[from..], uid, batches, ends, i);
    ResumeExact(journal[from..], uid, batches, ends, i);
    var a, b := from + Start(ends, i), from + ends[i];
    assert journal[from..][Start(ends, i)..ends[i]] == journal[a..b];
    EligibleSlice(journal, 0, a, |journal|, uid);
    EligibleSlice(journal, a, b, |journal|, uid);
    assert journal[0..|journal|] == journal;
  }

  // ------------------------------------------------------------ the exporter

  /** One pass: the journal it meets, where the lookback window begins for it, how many calls succeed before
      the one that fails or never returns, and whether that one took effect all the same. */
  datatype Pass = Pass(journal: seq<Line>, window: nat, calls: nat, lost: bool)

  /** What the exporter holds while a pass has got to end. */
  ghost predicate Exported(journal: seq<Line>, uid: string, saved: Option<string>, start: nat, acked: seq<Record>, end: nat)
  {
    && start <= end <= |journal| && AckedBetween(journal, uid, start, end, acked)
    && Covered(journal, uid, saved, start, acked) && OnlyEligible(journal, uid, acked)
  }

  lemma ExportedEnd(journal: seq<Line>, uid: string, saved: Option<string>, start: nat, acked: seq<Record>, end: nat)
    requires Exported(journal, uid, saved, start, acked, end)
    ensures end <= |journal|
  {
  }

  lemma ExportedFacts(journal: seq<Line>, uid: string, saved: Option<string>, start: nat, acked: seq<Record>)
    requires exists end :: Exported(journal, uid, saved, start, acked, end)
    ensures Covered(journal, uid, saved, start, acked) && OnlyEligible(journal, uid, acked)
  {
  }

  /** After shipping batch i, whether the whole of it or a part: the old cursor still stands for what was
      acknowledged, and after the whole of it the new one does too. */
  lemma ExportedShip(journal: seq<Line>, uid: string, saved: Option<string>, start: nat, from: nat, batches: seq<Batch>, ends: seq<nat>,
                     i: nat, before: seq<Record>, acked: seq<Record>)
    requires from <= |journal| && Reads(journal[from..], uid, batches, ends) && i < |batches| == |ends|
    requires Exported(journal, uid, saved, start, before, from + Start(ends, i))
    requires before <= acked && forall r | r in acked[|before|..] :: r in batches[i].records
    ensures Exported(journal, uid, saved, start, acked, from + Start(ends, i))
    ensures (forall r | r in batches[i].records :: r in acked)
            ==> Exported(journal, uid, saved, start, acked, from + ends[i])
                && Exported(journal, uid, Some(batches[i].cursor), start, acked, from + ends[i])
  {
    hide Eligible, Reads, AckedBetween, Covered, OnlyEligible;
    BatchEligible(journal, uid, from, batches, ends, i);
    AckedKeeps(journal, uid, saved, start, before, acked, batches[i].records, from + Start(ends, i));
    if forall r | r in batches[i].records :: r in acked {
      AckedFurther(journal, uid, start, from + Start(ends, i), from + ends[i], acked, batches[i].records);
      CoveredNow(journal, uid, batches[i].cursor, start, acked, from + ends[i] - 1);
    }
  }

  lemma CoveredNow(journal: seq<Line>, uid: string, cursor: string, start: nat, acked: seq<Record>, p: nat)
    requires CoveredTo(journal, uid, cursor, start, acked, p)
    ensures Covered(journal, uid, Some(cursor), start, acked)
  {
  }

  lemma CursorStands(journal: seq<Line>, uid: string, cursor: string, start: nat, acked: seq<Record>)
    requires Covered(journal, uid, Some(cursor), start, acked)
    ensures exists p: nat :: StandsAt(journal, cursor, p)
  {
    var p: nat :| CoveredTo(journal, uid, cursor, start, acked, p);
  }

  lemma ReadsFacts(journal: seq<Line>, uid: string, from: nat, batches: seq<Batch>, ends: seq<nat>)
    requires from <= |journal| && Reads(journal[from..], uid, batches, ends)
    ensures |batches| == |ends| && from + Start(ends, |ends|) <= |journal|
  {
    if |ends| > 0 {
      assert Slices(journal[from..], uid, batches, ends, |ends| - 1);
    }
  }

  // ------------------------------------------------------------ what one pass sends

  /** The journal is read from where the saved cursor stands, or from the window. */
  ghost predicate ReadFrom(pass: Pass, saved: Option<string>, from: nat)
  {
    from <= |pass.journal| && if saved.None? then from == pass.window else from > 0 && StandsAt(pass.journal, saved.value, from - 1)
  }

  /** What a pass that reads from from sends when it gets to save the cursor before to: every eligible record in
      between, each once, and beyond to at most one more batch, again no record more than once. */
  ghost predicate Sends(journal: seq<Line>, uid: string, bounds: Bounds, from: nat, to: nat, sent: seq<Record>)
  {
    && from <= to <= |journal|
    && multiset(Eligible(journal[from..to], uid)) <= multiset(sent) <= multiset(Eligible(journal[from..], uid))
    && |sent| <= |Eligible(journal[from..to], uid)| + Max(1, bounds.records)
  }

  ghost predicate SendsExactly(journal: seq<Line>, uid: string, from: nat, to: nat, sent: seq<Record>)
  {
    from <= to <= |journal| && multiset(sent) == multiset(Eligible(journal[from..to], uid))
  }

  lemma MultisetSizes<T>(a: seq<T>, b: seq<T>)
    requires multiset(a) <= multiset(b)
    ensures |a| <= |b|
  {
    assert multiset(b) == multiset(a) + (multiset(b) - multiset(a));
    assert |multiset(a)| == |a| && |multiset(b)| == |b|;
  }

  /** Part of batch i, or all of it, after all of the batches before it. */
  lemma BatchSent(journal: seq<Line>, uid: string, bounds: Bounds, from: nat, batches: seq<Batch>, ends: seq<nat>, i: nat,
                  before: seq<Record>, more: seq<Record>)
    requires from <= |journal| && Reads(journal[from..], uid, batches, ends) && AllBounded(journal[from..], uid, bounds, batches, ends)
    requires i < |batches| == |ends| && from + Start(ends, i) <= |journal|
    requires SendsExactly(journal, uid, from, from + Start(ends, i), before)
    requires multiset(more) <= multiset(batches[i].records)
    ensures from + ends[i] <= |journal|
    ensures Sends(journal, uid, bounds, from, from + Start(ends, i), before + more)
    ensures multiset(more) == multiset(batches[i].records)
            ==> SendsExactly(journal, uid, from, from + ends[i], before + more)
                && Sends(journal, uid, bounds, from, from + ends[i], before + more)
  {
    hide Eligible, Weight, Reads, AllBounded;
    BatchEligible(journal, uid, from, batches, ends, i);
    BatchSize(journal[from..], uid, bounds, batches, ends, i);
    var a, b := from + Start(ends, i), from + ends[i];
    EligibleSlice(journal, from, a, b, uid);
    EligibleSlice(journal, from, b, |journal|, uid);
    assert journal[from..|journal|] == journal[from..];
    MultisetSizes(more, batches[i].records);
    MultisetSizes(before, Eligible(journal[from..a], uid));
    assert multiset(before + more) == multiset(before) + multiset(more);
  }

  lemma BatchSize(lines: seq<Line>, uid: string, bounds: Bounds, batches: seq<Batch>, ends: seq<nat>, i: nat)
    requires AllBounded(lines, uid, bounds, batches, ends) && i < |batches|
    ensures |batches[i].records| <= Max(1, bounds.records)
  {
    hide Weight;
    assert Start(ends, i) <= ends[i] <= |lines| && Bounded(lines, uid, bounds, batches, ends, i);
  }

  lemma SentMembers(before: seq<Record>, acked: seq<Record>, records: seq<Record>)
    requires before <= acked && multiset(acked[|before|..]) <= multiset(records)
    ensures forall r | r in acked[|before|..] :: r in records
    ensures multiset(acked[|before|..]) == multiset(records) ==> forall r | r in records :: r in acked
  {
    var more := acked[|before|..];
    assert acked == before + more;
    assert forall r | r in more :: r in multiset(more);
    assert forall r | r in records :: r in multiset(records);
  }

  lemma NothingSent(journal: seq<Line>, uid: string, bounds: Bounds, from: nat)
    requires from <= |journal|
    ensures SendsExactly(journal, uid, from, from, []) && Sends(journal, uid, bounds, from, from, [])
  {
    assert journal[from..from] == [];
  }

  /** When nothing with a cursor is left after to, that is the whole rest of the journal. */
  lemma SentToEnd(journal: seq<Line>, uid: string, from: nat, to: nat, sent: seq<Record>)
    requires SendsExactly(journal, uid, from, to, sent) && forall k | to <= k < |journal| :: !HasCursor(journal[k])
    ensures SendsExactly(journal, uid, from, |journal|, sent)
  {
    hide Eligible, HasCursor;
    var rest := journal[to..|journal|];
    assert forall k | 0 <= k < |rest| :: rest[k] == journal[to + k];
    NoCursorsNoRecords(rest, uid);
    EligibleSlice(journal, from, to, |journal|, uid);
  }

  class LogExporter {
    const uid: string
    const bounds: Bounds
    const maxEntries: nat
    const configured: set<Service>
    var saved: Option<string>
    var acked: seq<Record>
    var calls: nat
    var lost: bool
    /** Where accounting began: the window of the pass that first saved a cursor. */
    ghost var start: nat

    constructor (uid: string, bounds: Bounds, maxEntries: nat, configured: set<Service>)
      ensures this.uid == uid && this.bounds == bounds && this.maxEntries == maxEntries && this.configured == configured
      ensures saved == None && acked == []
    {
      this.uid, this.bounds, this.maxEntries, this.configured := uid, bounds, maxEntries, configured;
      saved, acked, calls, lost, start := None, [], 0, false, 0;
    }

    /** One put_logs request. */
    method Put(chunk: seq<Record>) returns (ok: bool)
      modifies `acked, `calls
      ensures acked == old(acked) || acked == old(acked) + chunk
      ensures ok ==> acked == old(acked) + chunk
    {
      if calls == 0 {
        acked := if lost then acked + chunk else acked;
        return false;
      }
      calls := calls - 1;
      acked := acked + chunk;
      return true;
    }

    /** store.advance and store.save: the state file is replaced as a whole, or not at all. */
    method Save(cursor: string) returns (ok: bool)
      modifies `saved, `calls
      ensures saved == old(saved) || saved == Some(cursor)
      ensures ok ==> saved == Some(cursor)
    {
      if calls == 0 {
        saved := if lost then Some(cursor) else saved;
        return false;
      }
      calls := calls - 1;
      saved := Some(cursor);
      return true;
    }

    /** ship_log_batch: every record of the batch is acknowledged, or the pass ends here. Each is sent once. */
    method ShipLogBatch(records: seq<Record>) returns (ok: bool)
      requires maxEntries > 0
      modifies `acked, `calls
      ensures old(acked) <= acked && multiset(acked[|old(acked)|..]) <= multiset(records)
      ensures ok ==> multiset(acked[|old(acked)|..]) == multiset(records)
    {
      hide NoDup, OfService, GroupsSent;
      var order, groups := EntriesByService(records);
      ghost var mark := |acked|;
      NoGroups(records);
      assert order[..0] == [] && acked[mark..] == [];
      var i := 0;
      while i < |order|
        invariant 0 <= i <= |order| && mark <= |acked| && old(acked) == acked[..mark]
        invariant GroupsSent(records, order[..i], acked[mark..])
      {
        if order[i] !in configured {
          GroupsWithin(records, order[..i], acked[mark..]);
          return false;
        }
        ghost var before := acked;
        ghost var k;
        ok, k := ShipChunks(groups[order[i]]);
        NextGroup(records, order, i, mark, before, k);
        if !ok {
          return;
        }
        i := i + 1;
      }
      assert order[..|order|] == order;
      GroupsAll(records, order, acked[mark..]);
      return true;
    }

    /** The chunks of one service, in order, as far as they go. */
    method ShipChunks(entries: seq<Record>) returns (ok: bool, ghost k: nat)
      requires maxEntries > 0
      modifies `acked, `calls
      ensures k <= |entries| && acked == old(acked) + entries[..k] && (ok ==> k == |entries|)
    {
      var i := 0;
      k := 0;
      while i < |entries|
        invariant 0 <= i <= |entries| && k == i && acked == old(acked) + entries[..i]
      {
        var next := if i + maxEntries < |entries| then i + maxEntries else |entries|;
        assert entries[..next] == entries[..i] + entries[i..next];
        ok := Put(entries[i..next]);
        assert acked == old(acked) + entries[..i] || acked == old(acked) + entries[..next];
        k := if acked == old(acked) + entries[..i] then i else next;
        if !ok {
          return;
        }
        k := next;
        i := next;
      }
      return true, |entries|;
    }

    ghost predicate Valid(journal: seq<Line>)
      reads this
    {
      Covered(journal, uid, saved, start, acked) && OnlyEligible(journal, uid, acked) && maxEntries > 0
    }

    /** run_logs: one bounded pass. Wherever it stops, every eligible record up to the saved cursor has been
        acknowledged. It sends what lies behind the cursor it started with, each record once: all of it up to the
        cursor it saved last, and at most one batch more. If it stops by itself short of the batch limit, that is
        exactly the rest of the journal. */
    method RunLogs(pass: Pass) returns (ok: bool, more: bool, ghost from: nat, ghost to: nat)
      requires Valid(pass.journal) && UniqueCursors(pass.journal) && pass.window <= |pass.journal|
      modifies this
      ensures Valid(pass.journal)
      ensures old(saved).Some? ==> saved.Some? && start == old(start)
      ensures saved.Some? && old(saved).None? ==> start == pass.window
      ensures ok && !more && saved.Some? ==> start <= |pass.journal| && AckedBetween(pass.journal, uid, start, |pass.journal|, acked)
      ensures old(acked) <= acked
      ensures ReadFrom(pass, old(saved), from) && from <= to
      ensures if to == from then saved == old(saved) else to > 0 && saved.Some? && StandsAt(pass.journal, saved.value, to - 1)
      ensures Sends(pass.journal, uid, bounds, from, to, acked[|old(acked)|..])
      ensures ok ==> SendsExactly(pass.journal, uid, from, to, acked[|old(acked)|..])
      ensures ok && !more ==> SendsExactly(pass.journal, uid, from, |pass.journal|, acked[|old(acked)|..])
    {
      hide Eligible, Reads, AllBounded, AckedBetween, Exported, Covered, OnlyEligible, UniqueCursors, After, Sends, SendsExactly, StandsAt;
      var journal := pass.journal;
      calls, lost := pass.calls, pass.lost;
      var first := pass.window;
      if saved.Some? {
        CursorStands(journal, uid, saved.value, start, acked);
        first := AfterCursor(journal, saved.value);
        StandsInside(journal, saved.value, first - 1);
        CoveredAt(journal, uid, saved.value, start, acked, first);
      } else {
        start := pass.window;
        NothingBetween(journal, uid, start, acked);
      }
      from := first;
      CursorsAfter(journal, first, saved);
      var batches: seq<Batch>;
      ghost var ends: seq<nat>;
      batches, ends := ReadBatches(journal[first..], uid, saved, bounds);
      ReadsFacts(journal, uid, first, batches, ends);
      ok, to := ShipBatches(journal, first, batches, ends);
      more := |batches| >= Max(1, bounds.batches);
      ExportedFacts(journal, uid, saved, start, acked);
      if ok && !more {
        NothingLeft(journal, uid, first, batches, ends, saved, start, acked);
        NoCursorsLeft(journal, first, Start(ends, |ends|));
        SentToEnd(journal, uid, first, to, acked[|old(acked)|..]);
      }
    }

    /** ship_log_stream: each batch is shipped, then its cursor saved. */
    method ShipBatches(journal: seq<Line>, ghost from: nat, batches: seq<Batch>, ghost ends: seq<nat>) returns (ok: bool, ghost to: nat)
      requires from <= |journal| && Reads(journal[from..], uid, batches, ends) && |batches| == |ends| && maxEntries > 0
      requires AllBounded(journal[from..], uid, bounds, batches, ends)
      requires Exported(journal, uid, saved, start, acked, from)
      modifies `acked, `calls, `saved
      ensures exists end :: Exported(journal, uid, saved, start, acked, end)
      ensures ok ==> to == from + Start(ends, |ends|) <= |journal| && Exported(journal, uid, saved, start, acked, to)
      ensures old(saved).Some? ==> saved.Some?
      ensures old(acked) <= acked
      ensures if to == from then saved == old(saved) else to > from && saved.Some? && StandsAt(journal, saved.value, to - 1)
      ensures Sends(journal, uid, bounds, from, to, acked[|old(acked)|..])
      ensures ok ==> SendsExactly(journal, uid, from, to, acked[|old(acked)|..])
    {
      hide Eligible, Reads, Exported, AllBounded, Sends, SendsExactly, StandsAt;
      ghost var mark := |acked|;
      NothingSent(journal, uid, bounds, from);
      assert acked[mark..] == [];
      to := from;
      var i := 0;
      while i < |batches|
        invariant 0 <= i <= |batches| && to == from + Start(ends, i)
        invariant Exported(journal, uid, saved, start, acked, to)
        invariant (old(saved).Some? ==> saved.Some?) && old(acked) <= acked
        invariant if to == from then saved == old(saved) else to > from && saved.Some? && StandsAt(journal, saved.value, to - 1)
        invariant SendsExactly(journal, uid, from, to, acked[mark..]) && Sends(journal, uid, bounds, from, to, acked[mark..])
      {
        ghost var before := acked;
        ExportedEnd(journal, uid, saved, start, acked, to);
        BatchEligible(journal, uid, from, batches, ends, i);
        ok := ShipLogBatch(batches[i].records);
        SentMembers(before, acked, batches[i].records);
        ExportedShip(journal, uid, saved, start, from, batches, ends, i, before, acked);
        assert acked[mark..] == before[mark..] + acked[|before|..];
        BatchSent(journal, uid, bounds, from, batches, ends, i, before[mark..], acked[|before|..]);
        if !ok {
          return false, to;
        }
        ghost var was := saved;
        ok := Save(batches[i].cursor);
        assert Exported(journal, uid, saved, start, acked, from + ends[i]);
        if !ok {
          to := if saved == was then to else from + ends[i];
          return false, to;
        }
        to := from + ends[i];
        i := i + 1;
      }
      ExportedEnd(journal, uid, saved, start, acked, to);
      ok := true;
    }

    /** Any number of passes over a growing journal, each failing or crashing anywhere or not at all. The trace
        tells for each pass where it read from, up to where it saved a cursor, and what it sent; once a cursor
        is saved, each pass goes on where the one before it had saved. */
    method RunPasses(passes: seq<Pass>) returns (ghost trace: seq<Shipment>)
      requires saved == None && acked == [] && maxEntries > 0
      requires forall i | 0 <= i < |passes| :: UniqueCursors(passes[i].journal) && passes[i].window <= |passes[i].journal|
      requires forall i, j | 0 <= i < j < |passes| :: passes[i].journal <= passes[j].journal
      modifies this
      ensures passes != [] ==> Valid(passes[|passes| - 1].journal)
      ensures |trace| == |passes| && acked == AllSent(trace)
      ensures forall i | 0 <= i < |passes| :: Shipped(passes[i], uid, bounds, trace, i)
    {
      hide Covered, OnlyEligible, UniqueCursors, Sends, SendsExactly, StandsAt, Shipped, Traced, ReadFrom, AllSent;
      trace := [];
      NothingTraced(passes, uid, bounds);
      var i := 0;
      while i < |passes|
        invariant 0 <= i <= |passes| && |trace| == i
        invariant i > 0 ==> Valid(passes[i - 1].journal)
        invariant Traced(passes, uid, bounds, trace, saved, acked)
      {
        if i == 0 {
          TracedNothing(passes, uid, bounds, trace, saved, acked);
          NothingExported(passes[0].journal, uid, start);
        } else {
          CoveredGrows(passes[i - 1].journal, passes[i].journal, uid, saved, start, acked);
        }
        ghost var before, was := acked, saved;
        ghost var from, to;
        var ok, more;
        ok, more, from, to := RunLogs(passes[i]);
        TracedMore(passes, uid, bounds, trace, was, before, from, to, saved, acked);
        trace := trace + [Shipment(from, to, acked[|before|..], saved.Some?)];
        i := i + 1;
      }
      TracedAll(passes, uid, bounds, trace, saved, acked);
    }
  }

  // ------------------------------------------------------------ over all passes

  /** A pass: where it read from, where the last cursor it saved stands, what it sent, and whether a cursor is
      saved after it. */
  datatype Shipment = Shipment(from: nat, to: nat, sent: seq<Record>, saved: bool)

  function AllSent(trace: seq<Shipment>): seq<Record>
  {
    if |trace| == 0 then [] else AllSent(trace[..|trace| - 1]) + trace[|trace| - 1].sent
  }

  /** Pass i goes on where the pass before it had saved, or begins at its window while nothing is saved. */
  ghost predicate Shipped(pass: Pass, uid: string, bounds: Bounds, trace: seq<Shipment>, i: nat)
    requires i < |trace|
  {
    && Sends(pass.journal, uid, bounds, trace[i].from, trace[i].to, trace[i].sent)
    && trace[i].from == (if i > 0 && trace[i - 1].saved then trace[i - 1].to else pass.window)
    && (trace[i].saved <==> (i > 0 && trace[i - 1].saved) || trace[i].from < trace[i].to)
  }

  /** The trace so far, and where the saved cursor stands after it. */
  ghost predicate Traced(passes: seq<Pass>, uid: string, bounds: Bounds, trace: seq<Shipment>, saved: Option<string>, acked: seq<Record>)
  {
    && |trace| <= |passes| && acked == AllSent(trace)
    && (forall k | 0 <= k < |trace| :: Shipped(passes[k], uid, bounds, trace, k))
    && if |trace| == 0 then saved == None
       else
         var last := trace[|trace| - 1];
         && last.saved == saved.Some?
         && (saved.Some? ==> last.to > 0 && StandsAt(passes[|trace| - 1].journal, saved.value, last.to - 1))
  }

  lemma NothingTraced(passes: seq<Pass>, uid: string, bounds: Bounds)
    ensures Traced(passes, uid, bounds, [], None, [])
  {
  }

  lemma TracedNothing(passes: seq<Pass>, uid: string, bounds: Bounds, trace: seq<Shipment>, saved: Option<string>, acked: seq<Record>)
    requires Traced(passes, uid, bounds, trace, saved, acked) && trace == []
    ensures saved == None && acked == []
  {
  }

  lemma TracedAll(passes: seq<Pass>, uid: string, bounds: Bounds, trace: seq<Shipment>, saved: Option<string>, acked: seq<Record>)
    requires Traced(passes, uid, bounds, trace, saved, acked)
    ensures |trace| <= |passes| && acked == AllSent(trace)
    ensures forall k | 0 <= k < |trace| :: Shipped(passes[k], uid, bounds, trace, k)
  {
  }

  /** One more pass: it reads on where the cursor stands. */
  lemma TracedMore(passes: seq<Pass>, uid: string, bounds: Bounds, trace: seq<Shipment>, was: Option<string>, before: seq<Record>,
                   from: nat, to: nat, saved: Option<string>, acked: seq<Record>)
    requires |trace| < |passes| && Traced(passes, uid, bounds, trace, was, before) && before <= acked
    requires |trace| > 0 ==> passes[|trace| - 1].journal <= passes[|trace|].journal
    requires UniqueCursors(passes[|trace|].journal) && ReadFrom(passes[|trace|], was, from) && from <= to
    requires if to == from then saved == was else to > 0 && saved.Some? && StandsAt(passes[|trace|].journal, saved.value, to - 1)
    requires Sends(passes[|trace|].journal, uid, bounds, from, to, acked[|before|..])
    ensures Traced(passes, uid, bounds, trace + [Shipment(from, to, acked[|before|..], saved.Some?)], saved, acked)
  {
    hide Sends, UniqueCursors;
    var i, t := |trace|, Shipment(from, to, acked[|before|..], saved.Some?);
    var longer := trace + [t];
    if was.Some? {
      StandsLonger(passes[i - 1].journal, passes[i].journal, was.value, trace[i - 1].to - 1);
      StandsOnce(passes[i].journal, was.value, from - 1, trace[i - 1].to - 1);
    }
    hide StandsAt;
    assert longer[..i] == trace && acked == before + acked[|before|..];
    assert Shipped(passes[i], uid, bounds, longer, i);
    forall k | 0 <= k < i
      ensures Shipped(passes[k], uid, bounds, longer, k)
    {
      assert Shipped(passes[k], uid, bounds, trace, k);
    }
  }

  lemma StandsInside(journal: seq<Line>, cursor: string, p: nat)
    requires StandsAt(journal, cursor, p)
    ensures p < |journal|
  {
  }

  lemma StandsLonger(journal: seq<Line>, more: seq<Line>, cursor: string, p: nat)
    requires StandsAt(journal, cursor, p) && journal <= more
    ensures StandsAt(more, cursor, p)
  {
  }

  lemma StandsOnce(journal: seq<Line>, cursor: string, p: nat, q: nat)
    requires UniqueCursors(journal) && StandsAt(journal, cursor, p) && StandsAt(journal, cursor, q)
    ensures p == q
  {
  }

  lemma NoCursorsLeft(journal: seq<Line>, from: nat, offset: nat)
    requires from + offset <= |journal| && forall k | offset <= k < |journal[from..]| :: !HasCursor(journal[from..][k])
    ensures forall k | from + offset <= k < |journal| :: !HasCursor(journal[k])
  {
    forall k | from + offset <= k < |journal|
      ensures !HasCursor(journal[k])
    {
      assert journal[from..][k - from] == journal[k];
    }
  }

  lemma {:induction false} SavedForward(passes: seq<Pass>, uid: string, bounds: Bounds, trace: seq<Shipment>, i: nat, j: nat)
    requires i < j < |passes| == |trace| && forall k | 0 <= k < |passes| :: Shipped(passes[k], uid, bounds, trace, k)
    ensures trace[i].saved ==> trace[j - 1].saved && trace[i].to <= trace[j].from
    decreases j
  {
    hide Eligible;
    assert Shipped(passes[j], uid, bounds, trace, j);
    if i < j - 1 {
      SavedForward(passes, uid, bounds, trace, i, j - 1);
      assert Shipped(passes[j - 1], uid, bounds, trace, j - 1);
    }
  }

  /** Where a record comes from: a line with its cursor. */
  lemma {:induction false} RecordAt(lines: seq<Line>, uid: string, r: Record)
    requires r in Eligible(lines, uid)
    ensures exists p: nat :: StandsAt(lines, r.cursor, p)
  {
    var init, last := lines[..|lines| - 1], lines[|lines| - 1];
    if r in Eligible(init, uid) {
      RecordAt(init, uid, r);
      var p: nat :| StandsAt(init, r.cursor, p);
      assert StandsAt(lines, r.cursor, p);
    } else {
      assert StandsAt(lines, r.cursor, |lines| - 1);
    }
  }

  lemma RecordFrom(journal: seq<Line>, uid: string, from: nat, r: Record) returns (p: nat)
    requires from <= |journal| && r in Eligible(journal[from..], uid)
    ensures from <= p && StandsAt(journal, r.cursor, p)
  {
    RecordAt(journal[from..], uid, r);
    var k: nat :| StandsAt(journal[from..], r.cursor, k);
    p := from + k;
    assert journal[p] == journal[from..][k];
  }

  /** A record is sent again only if no cursor at or behind it was saved by the pass that sent it: once one is,
      no later pass sends it. */
  lemma SentAgain(passes: seq<Pass>, uid: string, bounds: Bounds, trace: seq<Shipment>, i: nat, j: nat, r: Record, p: nat)
    requires i < j < |passes| == |trace|
    requires forall k | 0 <= k < |passes| :: UniqueCursors(passes[k].journal) && Shipped(passes[k], uid, bounds, trace, k)
    requires passes[i].journal <= passes[j].journal
    requires r in trace[i].sent && r in trace[j].sent && StandsAt(passes[i].journal, r.cursor, p)
    ensures trace[i].saved ==> trace[i].to <= p
  {
    hide Eligible, UniqueCursors;
    assert Shipped(passes[j], uid, bounds, trace, j);
    assert r in multiset(trace[j].sent) && r in multiset(Eligible(passes[j].journal[trace[j].from..], uid));
    var q := RecordFrom(passes[j].journal, uid, trace[j].from, r);
    StandsLonger(passes[i].journal, passes[j].journal, r.cursor, p);
    StandsOnce(passes[j].journal, r.cursor, p, q);
    SavedForward(passes, uid, bounds, trace, i, j);
  }

  /** And within one pass no record is sent twice. */
  lemma SentOnce(pass: Pass, uid: string, bounds: Bounds, trace: seq<Shipment>, i: nat)
    requires i < |trace| && UniqueCursors(pass.journal) && Shipped(pass, uid, bounds, trace, i)
    ensures NoDup(trace[i].sent)
  {
    hide Eligible;
    var rest := pass.journal[trace[i].from..];
    assert UniqueCursors(rest) by {
      assert forall k | 0 <= k < |rest| :: rest[k] == pass.journal[trace[i].from + k];
    }
    EligibleOnce(rest, uid);
    SubNoDup(trace[i].sent, Eligible(rest, uid));
  }

  lemma {:induction false} EligibleOnce(lines: seq<Line>, uid: string)
    requires UniqueCursors(lines)
    ensures NoDup(Eligible(lines, uid))
  {
    if |lines| > 0 {
      var init, last := lines[..|lines| - 1], lines[|lines| - 1];
      assert forall k | 0 <= k < |init| :: init[k] == lines[k];
      EligibleOnce(init, uid);
      var record := RecordOf(last, uid);
      if record.Some? {
        assert HasCursor(last) && record.value.cursor == last.raw.cursor;
        assert forall p: nat :: !StandsAt(init, record.value.cursor, p);
        NoRecord(init, uid, record.value);
        NoDupConcat(Eligible(init, uid), [record.value]);
      }
    }
  }

  lemma NoRecord(lines: seq<Line>, uid: string, r: Record)
    requires forall p: nat :: !StandsAt(lines, r.cursor, p)
    ensures r !in Eligible(lines, uid)
  {
    hide StandsAt;
    if r in Eligible(lines, uid) {
      RecordAt(lines, uid, r);
    }
  }

  lemma SubNoDup<T>(a: seq<T>, b: seq<T>)
    requires NoDup(b) && multiset(a) <= multiset(b)
    ensures NoDup(a)
  {
    NoDupCounts(b);
    forall i, j | 0 <= i < j < |a|
      ensures a[i] != a[j]
    {
      if a[i] == a[j] {
        TwiceCounts(a, i, j);
      }
    }
  }

  lemma TwiceCounts<T>(s: seq<T>, i: nat, j: nat)
    requires i < j < |s| && s[i] == s[j]
    ensures multiset(s)[s[i]] >= 2
  {
    assert s == s[..j] + [s[j]] + s[j + 1..];
    assert s[..j][i] == s[i];
    assert s[i] in multiset(s[..j]);
  }

  lemma {:induction false} NoDupCounts<T>(s: seq<T>)
    requires NoDup(s)
    ensures forall x :: multiset(s)[x] <= 1
  {
    if |s| > 0 {
      var init := s[..|s| - 1];
      NoDupCounts(init);
      assert s == init + [s[|s| - 1]];
    }
  }

  // ------------------------------------------------------------ groups

  /** Exactly the records of these services have been sent, each as often as it is among the records. */
  ghost predicate GroupsSent(records: seq<Record>, order: seq<Service>, sent: seq<Record>)
  {
    forall r: Record :: multiset(sent)[r] == if r.service in order then multiset(records)[r] else 0
  }

  lemma {:induction false} OfServiceCounts(records: seq<Record>, service: Service, r: Record)
    ensures multiset(OfService(records, service))[r] == if r.service == service then multiset(records)[r] else 0
  {
    if |records| > 0 {
      OfServiceCounts(records[..|records| - 1], service, r);
      assert records == records[..|records| - 1] + [records[|records| - 1]];
    }
  }

  lemma GroupsWithin(records: seq<Record>, order: seq<Service>, sent: seq<Record>)
    requires GroupsSent(records, order, sent)
    ensures multiset(sent) <= multiset(records)
  {
  }

  lemma GroupsAll(records: seq<Record>, order: seq<Service>, sent: seq<Record>)
    requires GroupsSent(records, order, sent) && forall r | r in records :: r.service in order
    ensures multiset(sent) == multiset(records)
  {
    forall r: Record
      ensures multiset(sent)[r] == multiset(records)[r]
    {
      if r !in records {
        assert multiset(records)[r] == 0;
      }
    }
  }

  lemma NoGroups(records: seq<Record>)
    ensures GroupsSent(records, [], [])
  {
  }

  lemma NextGroup(records: seq<Record>, order: seq<Service>, i: nat, mark: nat, before: seq<Record>, k: nat)
    requires NoDup(order) && i < |order| && mark <= |before| && k <= |OfService(records, order[i])|
    requires GroupsSent(records, order[..i], before[mark..])
    ensures var group := OfService(records, order[i]);
            var acked := before + group[..k];
            && multiset(acked[mark..]) <= multiset(records)
            && (k == |group| ==> GroupsSent(records, order[..i + 1], acked[mark..]))
  {
    hide GroupsSent, OfService;
    NewInOrder(order, i);
    hide NoDup;
    var group := OfService(records, order[i]);
    assert (before + group[..k])[mark..] == before[mark..] + group[..k];
    assert order[..i + 1] == order[..i] + [order[i]];
    GroupSent(records, order[..i], order[i], before[mark..], k);
  }

  lemma NewInOrder(order: seq<Service>, i: nat)
    requires NoDup(order) && i < |order|
    ensures order[i] !in order[..i]
  {
  }

  /** The first k records of one more service. */
  lemma GroupSent(records: seq<Record>, order: seq<Service>, service: Service, sent: seq<Record>, k: nat)
    requires GroupsSent(records, order, sent) && service !in order && k <= |OfService(records, service)|
    ensures var group := OfService(records, service);
            && multiset(sent + group[..k]) <= multiset(records)
            && (k == |group| ==> GroupsSent(records, order + [service], sent + group[..k]))
  {
    hide OfService;
    var group := OfService(records, service);
    assert group == group[..k] + group[k..];
    forall r: Record
      ensures multiset(sent + group[..k])[r] <= multiset(records)[r]
      ensures k == |group| ==> multiset(sent + group[..k])[r] == if r.service in order + [service] then multiset(records)[r] else 0
    {
      OfServiceCounts(records, service, r);
      assert multiset(sent + group[..k])[r] == multiset(sent)[r] + multiset(group[..k])[r];
      assert multiset(group)[r] == multiset(group[..k])[r] + multiset(group[k..])[r];
    }
  }

  /** --after-cursor: the position after the line with the cursor. */
  method AfterCursor(journal: seq<Line>, cursor: string) returns (from: nat)
    requires exists p: nat :: StandsAt(journal, cursor, p)
    ensures from > 0 && StandsAt(journal, cursor, from - 1)
  {
    from := 0;
    while from < |journal|
      invariant from <= |journal| && forall p: nat | p < from :: !StandsAt(journal, cursor, p)
    {
      if HasCursor(journal[from]) && journal[from].raw.cursor == cursor {
        assert StandsAt(journal, cursor, from);
        return from + 1;
      }
      from := from + 1;
    }
    assert false;
  }

  lemma CoveredAt(journal: seq<Line>, uid: string, cursor: string, start: nat, acked: seq<Record>, from: nat)
    requires Covered(journal, uid, Some(cursor), start, acked) && OnlyEligible(journal, uid, acked) && UniqueCursors(journal)
    requires from > 0 && StandsAt(journal, cursor, from - 1)
    ensures Exported(journal, uid, Some(cursor), start, acked, from)
  {
    hide Eligible;
    var p: nat :| CoveredTo(journal, uid, cursor, start, acked, p);
    assert p == from - 1;
  }

  lemma NothingBetween(journal: seq<Line>, uid: string, start: nat, acked: seq<Record>)
    requires start <= |journal| && OnlyEligible(journal, uid, acked)
    ensures Exported(journal, uid, None, start, acked, start)
  {
  }

  lemma CursorsAfter(journal: seq<Line>, from: nat, saved: Option<string>)
    requires UniqueCursors(journal) && from <= |journal|
    requires saved.Some? ==> from > 0 && StandsAt(journal, saved.value, from - 1)
    ensures After(journal[from..], saved)
  {
    forall i | 0 <= i < |journal[from..]| && HasCursor(journal[from..][i])
      ensures saved != Some(journal[from..][i].raw.cursor)
    {
      assert journal[from..][i] == journal[from + i];
    }
  }

  lemma AckedKeeps(journal: seq<Line>, uid: string, saved: Option<string>, start: nat, before: seq<Record>, acked: seq<Record>,
                   records: seq<Record>, end: nat)
    requires before <= acked && (forall r | r in acked[|before|..] :: r in records)
    requires forall r | r in records :: r in Eligible(journal, uid)
    requires Covered(journal, uid, saved, start, before) && OnlyEligible(journal, uid, before)
    requires start <= end <= |journal| && AckedBetween(journal, uid, start, end, before)
    ensures Covered(journal, uid, saved, start, acked) && OnlyEligible(journal, uid, acked)
    ensures AckedBetween(journal, uid, start, end, acked)
  {
    hide Eligible;
    var more := acked[|before|..];
    assert acked == before + more;
    AckedMore(journal, uid, saved, start, before, more);
  }

  lemma {:induction false} NoCursorsNoRecords(lines: seq<Line>, uid: string)
    requires forall k | 0 <= k < |lines| :: !HasCursor(lines[k])
    ensures Eligible(lines, uid) == []
  {
    if |lines| > 0 {
      NoCursorsNoRecords(lines[..|lines| - 1], uid);
    }
  }

  lemma NothingLeft(journal: seq<Line>, uid: string, from: nat, batches: seq<Batch>, ends: seq<nat>, saved: Option<string>, start: nat,
                    acked: seq<Record>)
    requires from <= |journal| && Reads(journal[from..], uid, batches, ends)
    requires from + Start(ends, |ends|) <= |journal|
    requires Exported(journal, uid, saved, start, acked, from + Start(ends, |ends|))
    requires forall k | Start(ends, |ends|) <= k < |journal[from..]| :: !HasCursor(journal[from..][k])
    ensures start <= |journal|
    ensures AckedBetween(journal, uid, start, |journal|, acked)
  {
    hide Eligible, HasCursor;
    var end := from + Start(ends, |ends|);
    var rest := journal[end..|journal|];
    forall k | 0 <= k < |rest|
      ensures !HasCursor(rest[k])
    {
      assert rest[k] == journal[from..][Start(ends, |ends|) + k];
    }
    NoCursorsNoRecords(rest, uid);
    AckedFurther(journal, uid, start, end, |journal|, acked, []);
  }

  lemma NothingExported(journal: seq<Line>, uid: string, start: nat)
    ensures Covered(journal, uid, None, start, []) && OnlyEligible(journal, uid, [])
  {
  }
}
