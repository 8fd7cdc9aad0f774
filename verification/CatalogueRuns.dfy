/** Runs of catalogue transactions: pruning in chunks, invariants of every run, lifecycle over runs. */
module CatalogueRuns {
  import opened Net
  import opened Sums
  import opened Seqs
  import opened SearchText
  import opened Catalogue

  // ------------------------------------------------------------ pruning

  function Stale(torrents: map<InfoHash, Torrent>, cutoff: int): set<InfoHash>
  {
    set h | h in torrents && torrents[h].lastSeen < cutoff
  }

  /** All of hs deleted at once, the totals recomputed. */
  ghost function Bulk(db: Db, hs: set<InfoHash>): Db
  {
    Reconciled(Db(db.torrents - hs, db.files - hs, db.jobs - hs, db.docs - hs, db.totals))
  }

  lemma BulkNothing(db: Db)
    requires TotalsRight(db)
    ensures Bulk(db, {}) == db
  {
    hide Sum;
    assert db.torrents - {} == db.torrents && db.files - {} == db.files && db.jobs - {} == db.jobs && db.docs - {} == db.docs;
    ReconcileExact(db);
  }

  lemma BulkConsistent(db: Db, hs: set<InfoHash>)
    requires Consistent(db)
    ensures Consistent(Bulk(db, hs)) && TotalsRight(Bulk(db, hs))
  {
    hide Sum;
    ReconcileExact(Db(db.torrents - hs, db.files - hs, db.jobs - hs, db.docs - hs, db.totals));
  }

  /** One more deletion, with its own decrements, is one more member of the bulk. */
  lemma BulkStep(db: Db, hs: set<InfoHash>, h: InfoHash)
    requires Consistent(db) && h in db.torrents && h !in hs
    ensures h in Bulk(db, hs).torrents && Deleted(Bulk(db, hs), h) == Bulk(db, hs + {h})
  {
    hide Sum, Consistent;
    var b := Bulk(db, hs);
    BulkConsistent(db, hs);
    DeletedTotals(b, h);
    MinusBoth(db.torrents, hs, h);
    MinusBoth(db.files, hs, h);
    MinusBoth(db.jobs, hs, h);
    MinusBoth(db.docs, hs, h);
    var d := Deleted(b, h);
    assert d.totals == TrueTotals(d);
  }

  lemma MinusBoth<V>(m: map<InfoHash, V>, hs: set<InfoHash>, h: InfoHash)
    ensures m - hs - {h} == m - (hs + {h})
  {
  }

  /** A query for the stale rows: every stale hash once, in some order. */
  ghost predicate Lists(query: (map<InfoHash, Torrent>, int) -> seq<InfoHash>)
  {
    forall torrents, cutoff :: NoDup(query(torrents, cutoff)) && SetOf(query(torrents, cutoff)) == Stale(torrents, cutoff)
  }

  lemma StaleAfter(db: Db, hs: set<InfoHash>, cutoff: int)
    ensures Stale(Bulk(db, hs).torrents, cutoff) == Stale(db.torrents, cutoff) - hs
  {
    assert Bulk(db, hs).torrents == db.torrents - hs;
  }

  const CHUNK: nat := 128

  /** The catalogue behind its transactions. */
  class Store {
    var db: Db

    constructor ()
      ensures db == EMPTY
    {
      db := EMPTY;
    }

    /** The statements of discover, in order. */
    method DiscoverRow(h: InfoHash, source: string, peers: bool, now: int) returns (outcome: Discovery)
      modifies this
      ensures (db, outcome) == Discover(old(db), h, source, peers, now)
    {
      var metadataComplete := if h in db.torrents then Some(db.torrents[h].complete) else None;
      db := db.(torrents := db.torrents[h := Seen(db, h, source, now)]);
      var inserted := metadataComplete.None?;
      db := db.(totals := Add(db.totals, if inserted then 1 else 0, 0, 0, 0));
      var jobExists := h in db.jobs;
      if peers {
        if metadataComplete == Some(true) {
          db := db.(jobs := db.jobs[h := if jobExists then db.jobs[h].(status := Complete, nextAttemptAt := 0)
                                         else JobRow(Complete, 0, 0)]);
        } else {
          db := db.(jobs := db.jobs[h := if jobExists then db.jobs[h].(status := Requeued(db.jobs[h].status, true), nextAttemptAt := 0)
                                         else JobRow(Queued, 0, 0)]);
        }
        return Discovery(inserted, !jobExists, false);
      } else if jobExists {
        db := db.(jobs := db.jobs[h := db.jobs[h].(status := Requeued(db.jobs[h].status, false))]);
        return Discovery(inserted, false, false);
      } else {
        return Discovery(inserted, false, true);
      }
    }

    /** refresh_search */
    method RefreshSearch(h: InfoHash, budget: nat) returns (ok: bool)
      requires h in db.torrents
      modifies this
      ensures ok <==> Refreshed(old(db), h, budget).Some?
      ensures db == if ok then Refreshed(old(db), h, budget).value else old(db)
    {
      hide Document;
      var row := db.torrents[h];
      var built := SearchDocument(row.complete, row.name, Paths(FilesOf(db, h)), budget);
      match built {
        case TooLarge =>
          return false;
        case Built(doc) =>
          db := db.(docs := if doc.Some? then db.docs[h := doc.value] else db.docs - {h});
          return true;
      }
    }

    /** Inserting the files of a torrent that has none, in chunks. */
    method InsertFiles(h: InfoHash, files: seq<File>)
      requires h !in db.files
      modifies this
      ensures db == old(db).(files := PutFiles(old(db).files, h, files))
    {
      var i := 0;
      while i < |files|
        invariant 0 <= i <= |files| && db == old(db).(files := PutFiles(old(db).files, h, files[..i]))
      {
        var next := if i + CHUNK < |files| then i + CHUNK else |files|;
        assert files[..next] == files[..i] + files[i..next];
        db := db.(files := db.files[h := FilesOf(db, h) + files[i..next]]);
        i := next;
      }
      assert files[..|files|] == files;
    }

    /** commit_metadata, as one transaction: it takes full effect or none. */
    method CommitMetadata(h: InfoHash, name: Text, pieceLength: int, totalSize: int, files: seq<File>, now: int, budget: nat)
      returns (ok: bool)
      modifies this
      ensures ok <==> Commit(old(db), h, name, pieceLength, totalSize, files, now, budget).Some?
      ensures db == if ok then Commit(old(db), h, name, pieceLength, totalSize, files, now, budget).value else old(db)
    {
      hide Document, Seen, DiscoveredJobs, Acceptable;
      if !Acceptable(pieceLength, totalSize, files) {
        return false;
      }
      hide Filled;
      var begin := db;
      var _ := DiscoverRow(h, "dht", false, now);
      ghost var discovered := db;
      var was := db.torrents[h];
      var deleted := FillRow(h, name, pieceLength, totalSize, files, now);
      FilledFacts(discovered, h, name, pieceLength, totalSize, files, now);
      ok := RefreshSearch(h, budget);
      RefreshIgnoresTotals(discovered, h, name, pieceLength, totalSize, files, now, budget);
      if !ok {
        db := begin;
        return;
      }
      db := Finished(db, h);
      db := db.(totals := Add(db.totals, 0, if was.complete then 0 else 1, |files| - deleted, totalSize - was.totalSize));
    }

    /** Replacing the files and the metadata columns of a torrent; the totals come later. */
    method FillRow(h: InfoHash, name: Text, pieceLength: int, totalSize: int, files: seq<File>, now: int) returns (deleted: nat)
      requires h in db.torrents
      modifies this
      ensures db == Filled(old(db), h, name, pieceLength, totalSize, files, now).(totals := old(db).totals)
      ensures deleted == |FilesOf(old(db), h)|
    {
      var was := db.torrents[h];
      deleted := |FilesOf(db, h)|;
      db := db.(files := db.files - {h});
      db := db.(torrents := db.torrents[h := was.(name := Some(name), pieceLength := Some(pieceLength), totalSize := totalSize,
                                                  fileCount := |files|, lastSeen := now, complete := true)]);
      InsertFiles(h, files);
      assert PutFiles(old(db).files - {h}, h, files) == PutFiles(old(db).files, h, files);
    }

    /** persist_runtime_batch, under a new receipt. */
    method PersistRuntimeBatch(events: seq<Event>, now: int) returns (outcome: BatchOutcome)
      modifies this
      ensures (db, outcome) == PersistBatch(old(db), events, now)
    {
      hide Discover;
      outcome := BatchOutcome(0, 0, 0);
      var i := 0;
      while i < |events|
        invariant 0 <= i <= |events| && (db, outcome) == PersistBatch(old(db), events[..i], now)
      {
        assert events[..i + 1][..i] == events[..i];
        var e := events[i];
        if Discovers(e) {
          var d := DiscoverRow(e.h, SourceOf(e), false, now);
          outcome := Counted(outcome, d);
        }
        i := i + 1;
      }
      assert events[..|events|] == events;
    }

    /** prune_old_torrents: chunks of at most 128 rows, one transaction each, until none is stale. It ends
        with the state and the count of deleting all stale torrents at once. */
    method PruneOldTorrents(cutoff: int, query: (map<InfoHash, Torrent>, int) -> seq<InfoHash>) returns (total: nat)
      requires TotalsRight(db) && Consistent(db) && Lists(query)
      modifies this
      ensures db == Bulk(old(db), Stale(old(db).torrents, cutoff))
      ensures total == |Stale(old(db).torrents, cutoff)|
    {
      hide TotalsRight, Consistent, Bulk, Stale;
      ghost var begin, stale := db, Stale(db.torrents, cutoff);
      ghost var gone: set<InfoHash> := {};
      total := 0;
      BulkNothing(db);
      while true
        invariant db == Bulk(begin, gone) && gone <= stale && total == |gone|
        decreases stale - gone
      {
        StaleAfter(begin, gone, cutoff);
        assert Lists(query);
        var all := query(db.torrents, cutoff);
        FirstOfChunk(all, CHUNK);
        var rows := Take(all, CHUNK);
        if rows == [] {
          assert gone == stale;
          return;
        }
        StaleExist(begin, cutoff);
        PruneChunk(rows, begin, gone);
        total := total + |rows|;
        gone := gone + SetOf(rows);
      }
    }

    /** One transaction of prune_old_torrents. */
    method PruneChunk(rows: seq<InfoHash>, ghost begin: Db, ghost gone: set<InfoHash>)
      requires db == Bulk(begin, gone) && TotalsRight(begin) && Consistent(begin)
      requires NoDup(rows) && SetOf(rows) <= begin.torrents.Keys && SetOf(rows) !! gone
      modifies this
      ensures db == Bulk(begin, gone + SetOf(rows)) && |gone + SetOf(rows)| == |gone| + |rows|
    {
      hide TotalsRight, Consistent, Bulk, Deleted, SetOf, NoDup;
      ChunkStart(gone, rows);
      var i := 0;
      while i < |rows|
        invariant 0 <= i <= |rows| && db == Bulk(begin, gone + SetOf(rows[..i]))
      {
        ChunkStep(begin, gone, rows, i);
        db := DeleteRow(db, rows[i]);
        i := i + 1;
      }
      assert rows[..|rows|] == rows;
    }
  }

  lemma ChunkStart(gone: set<InfoHash>, rows: seq<InfoHash>)
    requires NoDup(rows) && SetOf(rows) !! gone
    ensures gone + SetOf(rows[..0]) == gone && |gone + SetOf(rows)| == |gone| + |rows|
  {
    NoDupSize(rows);
  }

  lemma ChunkStep(begin: Db, gone: set<InfoHash>, rows: seq<InfoHash>, i: nat)
    requires Consistent(begin) && i < |rows| && NoDup(rows)
    requires SetOf(rows) <= begin.torrents.Keys && SetOf(rows) !! gone
    ensures rows[i] in Bulk(begin, gone + SetOf(rows[..i])).torrents
    ensures Deleted(Bulk(begin, gone + SetOf(rows[..i])), rows[i]) == Bulk(begin, gone + SetOf(rows[..i + 1]))
  {
    hide Consistent, Bulk, Deleted;
    var h := rows[i];
    NoDupNext(rows, i);
    assert h in SetOf(rows);
    BulkStep(begin, gone + SetOf(rows[..i]), h);
    assert gone + SetOf(rows[..i]) + {h} == gone + SetOf(rows[..i + 1]);
  }

  lemma FirstOfChunk(all: seq<InfoHash>, n: nat)
    requires NoDup(all) && n > 0
    ensures NoDup(Take(all, n)) && SetOf(Take(all, n)) <= SetOf(all)
    ensures Take(all, n) == [] ==> SetOf(all) == {}
    ensures Take(all, n) != [] ==> Take(all, n)[0] in SetOf(Take(all, n))
  {
  }

  lemma StaleExist(db: Db, cutoff: int)
    ensures Stale(db.torrents, cutoff) <= db.torrents.Keys
  {
  }

  /** The statements for one pruned row; the other tables follow through their foreign keys. */
  method DeleteRow(db: Db, h: InfoHash) returns (after: Db)
    requires h in db.torrents
    ensures after == Deleted(db, h)
  {
    var row := db.torrents[h];
    var files := |FilesOf(db, h)|;
    after := db.(files := db.files - {h});
    after := after.(torrents := after.torrents - {h}, jobs := after.jobs - {h}, docs := after.docs - {h});
    after := after.(totals := Add(after.totals, -1, if row.complete then -1 else 0, -files, -row.totalSize));
  }

  lemma NoDupNext(rows: seq<InfoHash>, i: nat)
    requires NoDup(rows) && i < |rows|
    ensures rows[i] !in SetOf(rows[..i]) && SetOf(rows[..i + 1]) == SetOf(rows[..i]) + {rows[i]}
  {
    assert rows[..i + 1] == rows[..i] + [rows[i]];
  }

  lemma FilledFacts(db: Db, h: InfoHash, name: Text, pieceLength: int, totalSize: int, files: seq<File>, now: int)
    requires h in db.torrents
    ensures var f := Filled(db, h, name, pieceLength, totalSize, files, now);
            && h in f.torrents
            && f.totals == Add(db.totals, 0, if db.torrents[h].complete then 0 else 1, |files| - |FilesOf(db, h)|,
                               totalSize - db.torrents[h].totalSize)
  {
  }

  lemma RefreshIgnoresTotals(db: Db, h: InfoHash, name: Text, pieceLength: int, totalSize: int, files: seq<File>, now: int, budget: nat)
    requires h in db.torrents
    ensures var f := Filled(db, h, name, pieceLength, totalSize, files, now);
            var g := f.(totals := db.totals);
            && (Refreshed(f, h, budget).Some? <==> Refreshed(g, h, budget).Some?)
            && (Refreshed(f, h, budget).Some? ==> Refreshed(f, h, budget).value == Refreshed(g, h, budget).value.(totals := f.totals))
  {
    hide Document;
  }

  // ------------------------------------------------------------ runs

  datatype Op =
    | Discovered(h: InfoHash, source: string, peers: bool, now: int)
    | Committed(h: InfoHash, name: Text, pieceLength: int, totalSize: int, files: seq<File>, now: int)
    | RuntimeBatch(events: seq<Event>, now: int)
    | JobFailure(h: InfoHash, status: Status, attempts: nat, next: int)
    | Prune(cutoff: int)
    | Reconcile

  /** update_hash_job_failure is never asked to write the status complete. */
  predicate OpOk(op: Op)
  {
    op.JobFailure? ==> op.status != Complete
  }

  ghost function Step(db: Db, op: Op, budget: nat): Db
  {
    match op
    case Discovered(h, source, peers, now) => Discover(db, h, source, peers, now).0
    case Committed(h, name, pieceLength, totalSize, files, now) =>
      var d := Commit(db, h, name, pieceLength, totalSize, files, now, budget);
      if d.Some? then d.value else db
    case RuntimeBatch(events, now) => PersistBatch(db, events, now).0
    case JobFailure(h, status, attempts, next) => FailJob(db, h, status, attempts, next)
    case Prune(cutoff) => Bulk(db, Stale(db.torrents, cutoff))
    case Reconcile => Reconciled(db)
  }

  ghost function Run(db: Db, ops: seq<Op>, budget: nat): Db
  {
    if |ops| == 0 then db else Step(Run(db, ops[..|ops| - 1], budget), ops[|ops| - 1], budget)
  }

  ghost predicate CatalogueOk(db: Db)
  {
    TotalsRight(db) && Consistent(db) && Lifecycle(db)
  }

  lemma BulkLifecycle(db: Db, hs: set<InfoHash>)
    requires Lifecycle(db)
    ensures Lifecycle(Bulk(db, hs))
  {
    BulkTables(db, hs);
    hide Bulk;
    var d := Bulk(db, hs);
    forall x: InfoHash
      ensures (x in d.torrents && d.torrents[x].complete) <==> (x in d.jobs && d.jobs[x].status == Complete)
    {
      assert (x in db.torrents && db.torrents[x].complete) <==> (x in db.jobs && db.jobs[x].status == Complete);
    }
  }

  lemma BulkTables(db: Db, hs: set<InfoHash>)
    ensures Bulk(db, hs).torrents == db.torrents - hs && Bulk(db, hs).jobs == db.jobs - hs
    ensures Bulk(db, hs).files == db.files - hs && Bulk(db, hs).docs == db.docs - hs
  {
    hide Sum;
  }

  /** Pruning keeps everything of the torrents seen at the cutoff or later, and leaves no row of any other. */
  lemma PrunedExact(db: Db, cutoff: int, h: InfoHash)
    requires Consistent(db)
    ensures var d := Bulk(db, Stale(db.torrents, cutoff));
            && (h in d.torrents <==> h in db.torrents && db.torrents[h].lastSeen >= cutoff)
            && (h in d.torrents ==> SameRows(db, d, h) && SameJob(db, d, h))
            && (h !in d.torrents ==> h !in d.files && h !in d.jobs && h !in d.docs)
  {
    BulkTables(db, Stale(db.torrents, cutoff));
    hide Bulk;
  }

  lemma FailTotals(db: Db, h: InfoHash, status: Status, attempts: nat, next: int)
    requires TotalsRight(db) && Consistent(db)
    ensures TotalsRight(FailJob(db, h, status, attempts, next)) && Consistent(FailJob(db, h, status, attempts, next))
  {
    hide Sum;
  }

  lemma StepKeeps(db: Db, op: Op, budget: nat)
    requires CatalogueOk(db) && OpOk(op)
    ensures CatalogueOk(Step(db, op, budget))
  {
    hide TotalsRight, Consistent, Lifecycle, Commit, Discover, FailJob, Bulk, Reconciled;
    match op
    case Discovered(h, source, peers, now) =>
      DiscoverTotals(db, h, source, peers, now);
      DiscoverLifecycle(db, h, source, peers, now);
    case Committed(h, name, pieceLength, totalSize, files, now) =>
      CommitTotals(db, h, name, pieceLength, totalSize, files, now, budget);
      CommitLifecycle(db, h, name, pieceLength, totalSize, files, now, budget);
    case RuntimeBatch(events, now) =>
      BatchTotals(db, events, now);
      BatchLifecycle(db, events, now);
    case JobFailure(h, status, attempts, next) =>
      FailTotals(db, h, status, attempts, next);
      FailLifecycle(db, h, status, attempts, next);
    case Prune(cutoff) =>
      BulkConsistent(db, Stale(db.torrents, cutoff));
      BulkLifecycle(db, Stale(db.torrents, cutoff));
    case Reconcile =>
      ReconcileExact(db);
  }

  lemma EmptyOk()
    ensures CatalogueOk(EMPTY)
  {
  }

  /** From an empty store, after any sequence of transactions: the totals are the true counts, rows refer to
      torrents that exist, and a torrent is complete exactly when its job is. */
  lemma {:induction false} RunKeeps(ops: seq<Op>, budget: nat)
    requires forall i | 0 <= i < |ops| :: OpOk(ops[i])
    ensures CatalogueOk(Run(EMPTY, ops, budget))
  {
    hide CatalogueOk;
    if |ops| == 0 {
      EmptyOk();
    } else {
      RunKeeps(ops[..|ops| - 1], budget);
      StepKeeps(Run(EMPTY, ops[..|ops| - 1], budget), ops[|ops| - 1], budget);
    }
  }

  /** So at any time reconciling changes nothing. */
  lemma ReconcileIsIdle(ops: seq<Op>, budget: nat)
    requires forall i | 0 <= i < |ops| :: OpOk(ops[i])
    ensures Step(Run(EMPTY, ops, budget), Reconcile, budget) == Run(EMPTY, ops, budget)
  {
    RunKeeps(ops, budget);
    ReconcileExact(Run(EMPTY, ops, budget));
  }

  // ------------------------------------------------------------ lifecycle over runs

  predicate DiscoveryOnly(op: Op)
  {
    op.Discovered? || op.RuntimeBatch?
  }

  predicate Peerless(op: Op)
  {
    op.RuntimeBatch? || (op.Discovered? && !op.peers)
  }

  /** Two states of the job of x, before and after discoveries. */
  ghost predicate JobKept(a: Db, b: Db, x: InfoHash, peerless: bool)
  {
    && (x in a.jobs && Terminal(a.jobs[x].status) ==> StatusOf(b, x) == StatusOf(a, x))
    && (peerless ==> (x in b.jobs <==> x in a.jobs) && (x in a.jobs ==> b.jobs[x].nextAttemptAt == a.jobs[x].nextAttemptAt))
  }

  lemma {:induction false} BatchJobs(db: Db, events: seq<Event>, now: int, x: InfoHash)
    requires Lifecycle(db)
    ensures JobKept(db, PersistBatch(db, events, now).0, x, true)
  {
    hide Discover, Lifecycle;
    if |events| > 0 {
      BatchJobs(db, events[..|events| - 1], now, x);
      BatchLifecycle(db, events[..|events| - 1], now);
      var before := PersistBatch(db, events[..|events| - 1], now).0;
      var e := events[|events| - 1];
      if Discovers(e) {
        DiscoverJobs(before, e.h, SourceOf(e), false, now, x);
      }
    }
  }

  /** No sequence of discoveries, with or without peers, leaves a terminal status; no sequence of peerless
      ones creates a job or moves its next attempt. */
  lemma {:induction false} DiscoveriesKeepJobs(db: Db, ops: seq<Op>, budget: nat, x: InfoHash)
    requires CatalogueOk(db) && (forall i | 0 <= i < |ops| :: DiscoveryOnly(ops[i]))
    ensures CatalogueOk(Run(db, ops, budget))
    ensures JobKept(db, Run(db, ops, budget), x, forall i | 0 <= i < |ops| :: Peerless(ops[i]))
  {
    hide TotalsRight, Consistent, Lifecycle, Discover;
    if |ops| > 0 {
      var init, op := ops[..|ops| - 1], ops[|ops| - 1];
      assert forall i | 0 <= i < |init| :: init[i] == ops[i];
      DiscoveriesKeepJobs(db, init, budget, x);
      var before := Run(db, init, budget);
      StepKeeps(before, op, budget);
      if op.RuntimeBatch? {
        BatchJobs(before, op.events, op.now, x);
      } else {
        DiscoverJobs(before, op.h, op.source, op.peers, op.now, x);
      }
      assert (forall i | 0 <= i < |ops| :: Peerless(ops[i])) ==> forall i | 0 <= i < |init| :: Peerless(init[i]);
    }
  }

  lemma CommitCompletes(db: Db, h: InfoHash, name: Text, pieceLength: int, totalSize: int, files: seq<File>, now: int, budget: nat, x: InfoHash)
    requires Lifecycle(db) && StatusOf(db, x) == Some(Complete)
    ensures var d := Commit(db, h, name, pieceLength, totalSize, files, now, budget);
            d.Some? ==> StatusOf(d.value, x) == Some(Complete)
  {
    hide Document, Lifecycle;
    DiscoverJobs(db, h, "dht", false, now, x);
  }

  /** Nothing but pruning leaves complete, and pruning takes the torrent with it. */
  lemma CompleteStays(db: Db, op: Op, budget: nat, x: InfoHash)
    requires CatalogueOk(db) && OpOk(op) && StatusOf(db, x) == Some(Complete)
    ensures StatusOf(Step(db, op, budget), x) == Some(Complete)
            || (op.Prune? && x !in Step(db, op, budget).torrents && x !in Step(db, op, budget).jobs)
  {
    hide TotalsRight, Consistent, Lifecycle, Commit, Discover, Sum;
    match op
    case Discovered(h, source, peers, now) => DiscoverJobs(db, h, source, peers, now, x);
    case Committed(h, name, pieceLength, totalSize, files, now) =>
      CommitCompletes(db, h, name, pieceLength, totalSize, files, now, budget, x);
    case RuntimeBatch(events, now) => BatchJobs(db, events, now, x);
    case JobFailure(h, status, attempts, next) =>
    case Prune(cutoff) =>
    case Reconcile =>
  }
}
