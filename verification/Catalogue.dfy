/** The catalogue tables and their transactions: aggregate totals, referential integrity, job lifecycle. */
module Catalogue {
  import opened NodeIds
  import opened Net
  import opened Sums
  import opened SearchText

  type InfoHash = NodeId

  datatype Torrent = Torrent(name: Option<Text>, pieceLength: Option<int>, totalSize: int, fileCount: int, source: string,
                             firstSeen: int, lastSeen: int, complete: bool)

  datatype File = File(path: Text, size: int)

  datatype Status = Queued | RetryAt | WaitingPeers | Invalid | Unsupported | Complete

  datatype JobRow = JobRow(status: Status, attempts: nat, nextAttemptAt: int)

  datatype Totals = Totals(torrents: int, complete: int, files: int, size: int)

  /** Files are kept per torrent in id order; a torrent without files has no entry. */
  datatype Db = Db(torrents: map<InfoHash, Torrent>, files: map<InfoHash, seq<File>>, jobs: map<InfoHash, JobRow>,
                   docs: map<InfoHash, Doc>, totals: Totals)

  const EMPTY := Db(map[], map[], map[], map[], Totals(0, 0, 0, 0))

  function FilesOf(db: Db, h: InfoHash): seq<File>
  {
    if h in db.files then db.files[h] else []
  }

  function PutFiles(files: map<InfoHash, seq<File>>, h: InfoHash, list: seq<File>): map<InfoHash, seq<File>>
  {
    if list == [] then files - {h} else files[h := list]
  }

  /** Rows refer to torrents that exist. */
  ghost predicate Consistent(db: Db)
  {
    && db.files.Keys <= db.torrents.Keys && db.jobs.Keys <= db.torrents.Keys && db.docs.Keys <= db.torrents.Keys
    && (forall h | h in db.files :: db.files[h] != [])
  }

  // ------------------------------------------------------------ totals

  function One(b: bool): int
  {
    if b then 1 else 0
  }

  ghost function CompleteOf(): Torrent -> int
  {
    (t: Torrent) => One(t.complete)
  }

  ghost function SizeOf(): Torrent -> int
  {
    (t: Torrent) => t.totalSize
  }

  ghost function LengthOf(): seq<File> -> int
  {
    (list: seq<File>) => |list|
  }

  /** The true counts: torrents, complete torrents, files, and the sum of sizes. */
  ghost function TrueTotals(db: Db): Totals
  {
    Totals(|db.torrents|, Sum(db.torrents, CompleteOf()), Sum(db.files, LengthOf()), Sum(db.torrents, SizeOf()))
  }

  ghost predicate TotalsRight(db: Db)
  {
    db.totals == TrueTotals(db)
  }

  /** reconcile: recompute the totals from the tables. */
  ghost function Reconciled(db: Db): Db
  {
    db.(totals := TrueTotals(db))
  }

  function Add(t: Totals, torrents: int, complete: int, files: int, size: int): Totals
  {
    Totals(t.torrents + torrents, t.complete + complete, t.files + files, t.size + size)
  }

  // ------------------------------------------------------------ discover

  datatype Discovery = Discovery(torrentInserted: bool, jobCreated: bool, peerlessSkipped: bool)

  function Seen(db: Db, h: InfoHash, source: string, now: int): Torrent
  {
    if h in db.torrents then db.torrents[h].(source := source, lastSeen := now)
    else Torrent(None, None, 0, 0, source, now, now, false)
  }

  predicate Terminal(s: Status)
  {
    s == Complete || s == Invalid || s == Unsupported
  }

  /** The status column after a discovery of a torrent whose metadata is not complete. */
  function Requeued(s: Status, peers: bool): Status
  {
    if Terminal(s) || (s == WaitingPeers && !peers) then s else Queued
  }

  function DiscoveredJobs(db: Db, h: InfoHash, peers: bool, complete: bool): map<InfoHash, JobRow>
  {
    if peers then
      var status := if complete then Complete else if h in db.jobs then Requeued(db.jobs[h].status, true) else Queued;
      db.jobs[h := if h in db.jobs then db.jobs[h].(status := status, nextAttemptAt := 0) else JobRow(status, 0, 0)]
    else if h in db.jobs then db.jobs[h := db.jobs[h].(status := Requeued(db.jobs[h].status, false))]
    else db.jobs
  }

  function Discover(db: Db, h: InfoHash, source: string, peers: bool, now: int): (Db, Discovery)
  {
    var known := h in db.torrents;
    var complete := known && db.torrents[h].complete;
    (db.(torrents := db.torrents[h := Seen(db, h, source, now)],
         totals := Add(db.totals, One(!known), 0, 0, 0),
         jobs := DiscoveredJobs(db, h, peers, complete)),
     Discovery(!known, peers && h !in db.jobs, !peers && h !in db.jobs))
  }

  // ------------------------------------------------------------ commit_metadata

  predicate Acceptable(pieceLength: int, totalSize: int, files: seq<File>)
  {
    totalSize >= 0 && pieceLength >= 0 && forall i | 0 <= i < |files| :: files[i].path.octets > 0 && files[i].size >= 0
  }

  function Paths(files: seq<File>): seq<Text>
  {
    seq(|files|, i requires 0 <= i < |files| => files[i].path)
  }

  /** The search document of h as the tables stand. */
  function DocumentOf(db: Db, h: InfoHash, budget: nat): Built
    requires h in db.torrents
  {
    Document(db.torrents[h].complete, db.torrents[h].name, Paths(FilesOf(db, h)), budget)
  }

  /** refresh_search, unless the document is too large. */
  function Refreshed(db: Db, h: InfoHash, budget: nat): Option<Db>
    requires h in db.torrents
  {
    match DocumentOf(db, h, budget)
    case TooLarge => None
    case Built(doc) => Some(db.(docs := if doc.Some? then db.docs[h := doc.value] else db.docs - {h}))
  }

  function Finished(db: Db, h: InfoHash): Db
  {
    db.(jobs := db.jobs[h := if h in db.jobs then db.jobs[h].(status := Complete) else JobRow(Complete, 0, 0)])
  }

  function Filled(db: Db, h: InfoHash, name: Text, pieceLength: int, totalSize: int, files: seq<File>, now: int): Db
    requires h in db.torrents
  {
    var was := db.torrents[h];
    db.(torrents := db.torrents[h := was.(name := Some(name), pieceLength := Some(pieceLength), totalSize := totalSize,
                                          fileCount := |files|, lastSeen := now, complete := true)],
        files := PutFiles(db.files, h, files),
        totals := Add(db.totals, 0, One(!was.complete), |files| - |FilesOf(db, h)|, totalSize - was.totalSize))
  }

  /** commit_metadata: nothing at all when the metadata is invalid or its search document too large. */
  function Commit(db: Db, h: InfoHash, name: Text, pieceLength: int, totalSize: int, files: seq<File>, now: int, budget: nat): Option<Db>
  {
    if !Acceptable(pieceLength, totalSize, files) then None
    else
      var filled := Filled(Discover(db, h, "dht", false, now).0, h, name, pieceLength, totalSize, files, now);
      match Refreshed(filled, h, budget)
      case None => None
      case Some(refreshed) => Some(Finished(refreshed, h))
  }

  // ------------------------------------------------------------ the other transactions

  /** The events of a runtime batch that reach the catalogue: a rejected observation, a sample. */
  datatype Event = Observed(h: InfoHash, source: string, accepted: bool) | Sampled(h: InfoHash) | Other

  datatype BatchOutcome = BatchOutcome(torrents: nat, jobs: nat, skipped: nat)

  predicate Discovers(e: Event)
  {
    e.Sampled? || (e.Observed? && !e.accepted)
  }

  function SourceOf(e: Event): string
    requires Discovers(e)
  {
    if e.Observed? then e.source else "sample_infohashes"
  }

  function Counted(o: BatchOutcome, d: Discovery): BatchOutcome
  {
    BatchOutcome(o.torrents + One(d.torrentInserted), o.jobs + One(d.jobCreated), o.skipped + One(d.peerlessSkipped))
  }

  function PersistBatch(db: Db, events: seq<Event>, now: int): (Db, BatchOutcome)
  {
    if |events| == 0 then (db, BatchOutcome(0, 0, 0))
    else
      var (before, outcome) := PersistBatch(db, events[..|events| - 1], now);
      var e := events[|events| - 1];
      if Discovers(e) then
        var (after, d) := Discover(before, e.h, SourceOf(e), false, now);
        (after, Counted(outcome, d))
      else (before, outcome)
  }

  /** update_hash_job_failure: WHERE status <> 'complete'. */
  function FailJob(db: Db, h: InfoHash, status: Status, attempts: nat, next: int): Db
  {
    if h in db.jobs && db.jobs[h].status != Complete then db.(jobs := db.jobs[h := JobRow(status, attempts, next)]) else db
  }

  /** Deleting one torrent, with the rows that refer to it, and taking it off the totals. */
  function Deleted(db: Db, h: InfoHash): Db
    requires h in db.torrents
  {
    var t := db.torrents[h];
    Db(db.torrents - {h}, db.files - {h}, db.jobs - {h}, db.docs - {h},
       Add(db.totals, -1, -One(t.complete), -|FilesOf(db, h)|, -t.totalSize))
  }

  // ------------------------------------------------------------ every transaction keeps the totals

  lemma PutTorrent(db: Db, h: InfoHash, t: Torrent)
    ensures var d := db.(torrents := db.torrents[h := t]);
            TrueTotals(d) == Add(TrueTotals(db), One(h !in db.torrents),
                                 One(t.complete) - One(h in db.torrents && db.torrents[h].complete), 0,
                                 t.totalSize - if h in db.torrents then db.torrents[h].totalSize else 0)
  {
    hide Sum;
    KeysPlus(db.torrents, h, t);
    SumPut(db.torrents, CompleteOf(), h, t);
    SumPut(db.torrents, SizeOf(), h, t);
  }

  lemma PutFilesTotal(files: map<InfoHash, seq<File>>, h: InfoHash, list: seq<File>)
    ensures Sum(PutFiles(files, h, list), LengthOf()) == Sum(files, LengthOf()) + |list| - if h in files then |files[h]| else 0
  {
    hide Sum;
    if list == [] {
      RemoveFilesTotal(files, h);
    } else {
      SumPut(files, LengthOf(), h, list);
    }
  }

  lemma RemoveFilesTotal(files: map<InfoHash, seq<File>>, h: InfoHash)
    ensures Sum(files - {h}, LengthOf()) == Sum(files, LengthOf()) - if h in files then |files[h]| else 0
  {
    hide Sum;
    if h in files {
      SumTake(files, LengthOf(), h);
    } else {
      assert files - {h} == files;
    }
  }

  lemma DiscoverTotals(db: Db, h: InfoHash, source: string, peers: bool, now: int)
    requires TotalsRight(db) && Consistent(db)
    ensures TotalsRight(Discover(db, h, source, peers, now).0) && Consistent(Discover(db, h, source, peers, now).0)
  {
    hide Sum;
    PutTorrent(db, h, Seen(db, h, source, now));
  }

  lemma FilledTotals(db: Db, h: InfoHash, name: Text, pieceLength: int, totalSize: int, files: seq<File>, now: int)
    requires TotalsRight(db) && Consistent(db) && h in db.torrents
    ensures var d := Filled(db, h, name, pieceLength, totalSize, files, now); TotalsRight(d) && Consistent(d)
  {
    hide Sum;
    PutTorrent(db, h, Filled(db, h, name, pieceLength, totalSize, files, now).torrents[h]);
    PutFilesTotal(db.files, h, files);
  }

  lemma RefreshedTotals(db: Db, h: InfoHash, budget: nat)
    requires TotalsRight(db) && Consistent(db) && h in db.torrents
    ensures var d := Refreshed(db, h, budget);
            d.Some? ==> TotalsRight(d.value) && Consistent(d.value) && h in d.value.torrents
  {
    hide Sum, Document;
  }

  lemma FinishedTotals(db: Db, h: InfoHash)
    requires TotalsRight(db) && Consistent(db) && h in db.torrents
    ensures TotalsRight(Finished(db, h)) && Consistent(Finished(db, h))
  {
    hide Sum;
  }

  lemma CommitTotals(db: Db, h: InfoHash, name: Text, pieceLength: int, totalSize: int, files: seq<File>, now: int, budget: nat)
    requires TotalsRight(db) && Consistent(db)
    ensures var d := Commit(db, h, name, pieceLength, totalSize, files, now, budget);
            d.Some? ==> TotalsRight(d.value) && Consistent(d.value)
  {
    hide TotalsRight, Consistent, Filled, Refreshed, Finished, Acceptable, DiscoveredJobs;
    DiscoverTotals(db, h, "dht", false, now);
    var discovered := Discover(db, h, "dht", false, now).0;
    assert h in discovered.torrents;
    hide Discover;
    FilledTotals(discovered, h, name, pieceLength, totalSize, files, now);
    FilledKeys(discovered, h, name, pieceLength, totalSize, files, now);
    var filled := Filled(discovered, h, name, pieceLength, totalSize, files, now);
    RefreshedTotals(filled, h, budget);
    if Refreshed(filled, h, budget).Some? {
      FinishedTotals(Refreshed(filled, h, budget).value, h);
    }
  }

  lemma FilledKeys(db: Db, h: InfoHash, name: Text, pieceLength: int, totalSize: int, files: seq<File>, now: int)
    requires h in db.torrents
    ensures var d := Filled(db, h, name, pieceLength, totalSize, files, now);
            d.torrents.Keys == db.torrents.Keys && d.jobs == db.jobs && d.docs == db.docs
  {
  }

  lemma {:induction false} BatchTotals(db: Db, events: seq<Event>, now: int)
    requires TotalsRight(db) && Consistent(db)
    ensures TotalsRight(PersistBatch(db, events, now).0) && Consistent(PersistBatch(db, events, now).0)
  {
    hide TotalsRight, Consistent, Discover;
    if |events| > 0 {
      BatchTotals(db, events[..|events| - 1], now);
      var before := PersistBatch(db, events[..|events| - 1], now).0;
      var e := events[|events| - 1];
      if Discovers(e) {
        DiscoverTotals(before, e.h, SourceOf(e), false, now);
      }
    }
  }

  /** The three sums over torrents without one of them. */
  lemma TakeTorrent(torrents: map<InfoHash, Torrent>, h: InfoHash)
    requires h in torrents
    ensures |torrents - {h}| == |torrents| - 1
    ensures Sum(torrents - {h}, CompleteOf()) == Sum(torrents, CompleteOf()) - One(torrents[h].complete)
    ensures Sum(torrents - {h}, SizeOf()) == Sum(torrents, SizeOf()) - torrents[h].totalSize
  {
    hide Sum;
    KeysMinus(torrents, h);
    SumTake(torrents, CompleteOf(), h);
    SumTake(torrents, SizeOf(), h);
  }

  lemma DeletedTotals(db: Db, h: InfoHash)
    requires TotalsRight(db) && Consistent(db) && h in db.torrents
    ensures TotalsRight(Deleted(db, h)) && Consistent(Deleted(db, h))
  {
    hide Sum, CompleteOf, SizeOf, LengthOf;
    TakeTorrent(db.torrents, h);
    RemoveFilesTotal(db.files, h);
    DeletedConsistent(db, h);
    hide Consistent;
  }

  lemma DeletedConsistent(db: Db, h: InfoHash)
    requires Consistent(db) && h in db.torrents
    ensures Consistent(Deleted(db, h))
  {
  }

  /** reconcile changes nothing exactly when the totals are right, and always leaves them right. */
  lemma ReconcileExact(db: Db)
    ensures Reconciled(db) == db <==> TotalsRight(db)
    ensures TotalsRight(Reconciled(db))
  {
    hide Sum;
    var r := Reconciled(db);
    assert TrueTotals(r) == TrueTotals(db);
    assert db == db.(totals := db.totals);
  }

  /** How many of the events discover a torrent that has no job. */
  function Jobless(jobs: set<InfoHash>, events: seq<Event>): nat
  {
    if |events| == 0 then 0
    else
      var e := events[|events| - 1];
      Jobless(jobs, events[..|events| - 1]) + if Discovers(e) && e.h !in jobs then 1 else 0
  }

  /** What a batch reports is what it did: new torrents, no new jobs, and each discovery without a job. */
  lemma {:induction false} BatchReports(db: Db, events: seq<Event>, now: int)
    ensures var (after, outcome) := PersistBatch(db, events, now);
            && |after.torrents| == |db.torrents| + outcome.torrents
            && after.jobs.Keys == db.jobs.Keys && outcome.jobs == 0
            && outcome.skipped == Jobless(db.jobs.Keys, events)
  {
    hide Discover;
    if |events| > 0 {
      BatchReports(db, events[..|events| - 1], now);
      var before := PersistBatch(db, events[..|events| - 1], now).0;
      var e := events[|events| - 1];
      if Discovers(e) {
        PeerlessReport(before, e.h, SourceOf(e), now);
      }
    }
  }

  lemma PeerlessReport(db: Db, h: InfoHash, source: string, now: int)
    ensures var (after, d) := Discover(db, h, source, false, now);
            && |after.torrents| == |db.torrents| + One(d.torrentInserted)
            && after.jobs.Keys == db.jobs.Keys && !d.jobCreated && (d.peerlessSkipped <==> h !in db.jobs)
  {
    hide Requeued;
    KeysPlus(db.torrents, h, Seen(db, h, source, now));
  }

  // ------------------------------------------------------------ a commit run again

  /** Everything a commit writes for h is there. */
  ghost predicate Filed(db: Db, h: InfoHash, name: Text, pieceLength: int, totalSize: int, files: seq<File>, budget: nat)
  {
    && h in db.torrents && FilesOf(db, h) == files
    && db.torrents[h] == db.torrents[h].(name := Some(name), pieceLength := Some(pieceLength), totalSize := totalSize,
                                         fileCount := |files|, complete := true)
    && h in db.jobs && db.jobs[h].status == Complete
    && match DocumentOf(db, h, budget)
       case TooLarge => false
       case Built(doc) => if doc.Some? then h in db.docs && db.docs[h] == doc.value else h !in db.docs
  }

  lemma CommitFiled(db: Db, h: InfoHash, name: Text, pieceLength: int, totalSize: int, files: seq<File>, now: int, budget: nat)
    ensures var d := Commit(db, h, name, pieceLength, totalSize, files, now, budget);
            d.Some? ==> Acceptable(pieceLength, totalSize, files) && Filed(d.value, h, name, pieceLength, totalSize, files, budget)
  {
    hide Document, DiscoveredJobs, Acceptable;
  }

  /** Where a commit has been run already, whatever happened to other rows since, it is accepted again and marks
      the torrent as seen now; nothing else changes. */
  lemma FiledAgain(db: Db, h: InfoHash, name: Text, pieceLength: int, totalSize: int, files: seq<File>, now: int, budget: nat)
    requires Consistent(db) && Acceptable(pieceLength, totalSize, files)
    requires Filed(db, h, name, pieceLength, totalSize, files, budget)
    ensures Commit(db, h, name, pieceLength, totalSize, files, now, budget)
            == Some(db.(torrents := db.torrents[h := db.torrents[h].(source := "dht", lastSeen := now)]))
  {
    hide Document, Acceptable;
    var seen := db.(torrents := db.torrents[h := db.torrents[h].(source := "dht", lastSeen := now)]);
    assert Discover(db, h, "dht", false, now).0 == seen by {
      assert db.jobs[h := db.jobs[h]] == db.jobs;
    }
    hide Discover;
    var filled := Filled(seen, h, name, pieceLength, totalSize, files, now);
    assert filled == seen by {
      assert filled.torrents == seen.torrents;
      assert PutFiles(db.files, h, files) == db.files;
    }
    hide Filled;
    assert DocumentOf(seen, h, budget) == DocumentOf(db, h, budget);
    assert Refreshed(seen, h, budget) == Some(seen) by {
      assert h in db.docs ==> db.docs[h := db.docs[h]] == db.docs;
      assert h !in db.docs ==> db.docs - {h} == db.docs;
    }
    assert Finished(seen, h).jobs == db.jobs;
  }

  /** So a commit whose reply was lost can be run again: the second time it only moves the time of the torrent. */
  lemma CommitAgain(db: Db, h: InfoHash, name: Text, pieceLength: int, totalSize: int, files: seq<File>, first: int, second: int, budget: nat)
    requires Consistent(db) && Commit(db, h, name, pieceLength, totalSize, files, first, budget).Some?
    ensures var d := Commit(db, h, name, pieceLength, totalSize, files, first, budget).value;
            && h in d.torrents
            && Commit(d, h, name, pieceLength, totalSize, files, second, budget)
               == Some(d.(torrents := d.torrents[h := d.torrents[h].(lastSeen := second)]))
  {
    CommitConsistent(db, h, name, pieceLength, totalSize, files, first, budget);
    CommitFiled(db, h, name, pieceLength, totalSize, files, first, budget);
    CommitSource(db, h, name, pieceLength, totalSize, files, first, budget);
    hide Commit, Consistent, Filed, Acceptable;
    var d := Commit(db, h, name, pieceLength, totalSize, files, first, budget).value;
    FiledAgain(d, h, name, pieceLength, totalSize, files, second, budget);
  }

  lemma CommitConsistent(db: Db, h: InfoHash, name: Text, pieceLength: int, totalSize: int, files: seq<File>, now: int, budget: nat)
    requires Consistent(db)
    ensures var d := Commit(db, h, name, pieceLength, totalSize, files, now, budget); d.Some? ==> Consistent(d.value)
  {
    hide Document, Acceptable;
  }

  lemma CommitSource(db: Db, h: InfoHash, name: Text, pieceLength: int, totalSize: int, files: seq<File>, now: int, budget: nat)
    ensures var d := Commit(db, h, name, pieceLength, totalSize, files, now, budget);
            d.Some? ==> h in d.value.torrents && d.value.torrents[h].source == "dht"
  {
    hide Document, DiscoveredJobs, Acceptable;
  }

  // ------------------------------------------------------------ job lifecycle

  /** A torrent's metadata is complete exactly when its job exists with status complete. */
  ghost predicate Lifecycle(db: Db)
  {
    forall h: InfoHash :: (h in db.torrents && db.torrents[h].complete) <==> (h in db.jobs && db.jobs[h].status == Complete)
  }

  lemma DiscoverLifecycle(db: Db, h: InfoHash, source: string, peers: bool, now: int)
    requires Lifecycle(db)
    ensures Lifecycle(Discover(db, h, source, peers, now).0)
  {
    var d := Discover(db, h, source, peers, now).0;
    assert (h in db.torrents && db.torrents[h].complete) <==> (h in db.jobs && db.jobs[h].status == Complete);
    forall x: InfoHash
      ensures (x in d.torrents && d.torrents[x].complete) <==> (x in d.jobs && d.jobs[x].status == Complete)
    {
      assert (x in db.torrents && db.torrents[x].complete) <==> (x in db.jobs && db.jobs[x].status == Complete);
    }
  }

  lemma CommitLifecycle(db: Db, h: InfoHash, name: Text, pieceLength: int, totalSize: int, files: seq<File>, now: int, budget: nat)
    requires Lifecycle(db)
    ensures var d := Commit(db, h, name, pieceLength, totalSize, files, now, budget); d.Some? ==> Lifecycle(d.value)
  {
    hide Document, Requeued;
    DiscoverLifecycle(db, h, "dht", false, now);
    var c := Discover(db, h, "dht", false, now).0;
    hide Discover;
    var d := Commit(db, h, name, pieceLength, totalSize, files, now, budget);
    if d.Some? {
      forall x: InfoHash
        ensures (x in d.value.torrents && d.value.torrents[x].complete) <==> (x in d.value.jobs && d.value.jobs[x].status == Complete)
      {
        assert (x in c.torrents && c.torrents[x].complete) <==> (x in c.jobs && c.jobs[x].status == Complete);
      }
    }
  }

  lemma {:induction false} BatchLifecycle(db: Db, events: seq<Event>, now: int)
    requires Lifecycle(db)
    ensures Lifecycle(PersistBatch(db, events, now).0)
  {
    hide Lifecycle, Discover;
    if |events| > 0 {
      BatchLifecycle(db, events[..|events| - 1], now);
      var before := PersistBatch(db, events[..|events| - 1], now).0;
      var e := events[|events| - 1];
      if Discovers(e) {
        DiscoverLifecycle(before, e.h, SourceOf(e), false, now);
      }
    }
  }

  lemma FailLifecycle(db: Db, h: InfoHash, status: Status, attempts: nat, next: int)
    requires Lifecycle(db)
    ensures Lifecycle(FailJob(db, h, status, attempts, next)) <==> (h in db.jobs && db.jobs[h].status != Complete ==> status != Complete)
  {
    var d := FailJob(db, h, status, attempts, next);
    assert (h in db.torrents && db.torrents[h].complete) <==> (h in db.jobs && db.jobs[h].status == Complete);
    if h in db.jobs && db.jobs[h].status != Complete {
      assert (h in d.torrents && d.torrents[h].complete) <==> (h in db.jobs && db.jobs[h].status == Complete);
      forall x: InfoHash | x != h
        ensures (x in d.torrents && d.torrents[x].complete) <==> (x in d.jobs && d.jobs[x].status == Complete)
      {
        assert (x in db.torrents && db.torrents[x].complete) <==> (x in db.jobs && db.jobs[x].status == Complete);
      }
    }
  }

  /** The status of a job, if it has one. */
  function StatusOf(db: Db, h: InfoHash): Option<Status>
  {
    if h in db.jobs then Some(db.jobs[h].status) else None
  }

  /** The job is one that due_hash_jobs selects, once the hash has a stored peer. */
  predicate DueAt(db: Db, h: InfoHash, now: int)
  {
    h in db.jobs && (db.jobs[h].status == Queued || db.jobs[h].status == RetryAt) && db.jobs[h].nextAttemptAt <= now
  }

  /** What any discovery of h does to the job of any x. The jobs of other hashes stay as they are, and so does every
      number of attempts and every terminal status. With peers, h has a job afterwards that waits for no time:
      queued, unless its status is terminal or its torrent complete. Without peers, no job is created and no
      time moves: a job that waits for a retry is queued, one that waits for peers goes on waiting. */
  lemma DiscoverJobs(db: Db, h: InfoHash, source: string, peers: bool, now: int, x: InfoHash)
    requires Lifecycle(db)
    ensures var d := Discover(db, h, source, peers, now).0;
            && (x in db.jobs ==> x in d.jobs && d.jobs[x].attempts == db.jobs[x].attempts)
            && (x in db.jobs && Terminal(db.jobs[x].status) ==> StatusOf(d, x) == StatusOf(db, x))
            && (x != h ==> (x in d.jobs <==> x in db.jobs) && (x in db.jobs ==> d.jobs[x] == db.jobs[x]))
            && (peers ==> h in d.jobs && d.jobs[h].nextAttemptAt == 0 && (h !in db.jobs ==> d.jobs[h].attempts == 0))
            && (!peers ==> (x in d.jobs <==> x in db.jobs) && (x in db.jobs ==> d.jobs[x].nextAttemptAt == db.jobs[x].nextAttemptAt))
            && (h in d.jobs ==>
                  d.jobs[h].status ==
                  if h in db.torrents && db.torrents[h].complete then Complete
                  else if h !in db.jobs then Queued
                  else match db.jobs[h].status
                       case Queued => Queued
                       case RetryAt => Queued
                       case WaitingPeers => if peers then Queued else WaitingPeers
                       case Invalid => Invalid
                       case Unsupported => Unsupported
                       case Complete => Complete)
  {
    assert (x in db.torrents && db.torrents[x].complete) <==> (x in db.jobs && db.jobs[x].status == Complete);
    assert (h in db.torrents && db.torrents[h].complete) <==> (h in db.jobs && db.jobs[h].status == Complete);
  }

  /** So after a discovery with peers the job of a hash that is not done is due at once, and at any later time. */
  lemma DiscoveredIsDue(db: Db, h: InfoHash, source: string, now: int, later: int)
    requires Lifecycle(db) && later >= 0
    ensures DueAt(Discover(db, h, source, true, now).0, h, later)
            <==> (h in db.jobs ==> db.jobs[h].status != Complete && db.jobs[h].status != Invalid && db.jobs[h].status != Unsupported)
  {
    hide Lifecycle, Discover;
    DiscoverJobs(db, h, source, true, now, h);
    LifecycleAt(db, h);
  }

  lemma LifecycleAt(db: Db, h: InfoHash)
    requires Lifecycle(db)
    ensures (h in db.torrents && db.torrents[h].complete) <==> (h in db.jobs && db.jobs[h].status == Complete)
  {
  }

  // ------------------------------------------------------------ the rows a transaction writes

  /** Everything at x is in b as it is in a, but for the job. */
  ghost predicate SameRows(a: Db, b: Db, x: InfoHash)
  {
    && (x in b.torrents <==> x in a.torrents) && (x in a.torrents ==> b.torrents[x] == a.torrents[x])
    && (x in b.files <==> x in a.files) && (x in a.files ==> b.files[x] == a.files[x])
    && (x in b.docs <==> x in a.docs) && (x in a.docs ==> b.docs[x] == a.docs[x])
  }

  ghost predicate SameJob(a: Db, b: Db, x: InfoHash)
  {
    (x in b.jobs <==> x in a.jobs) && (x in a.jobs ==> b.jobs[x] == a.jobs[x])
  }

  /** A discovery marks the torrent as seen now from this source; a new one is incomplete and first seen now. */
  lemma DiscoverTorrent(db: Db, h: InfoHash, source: string, peers: bool, now: int)
    ensures var (d, o) := Discover(db, h, source, peers, now);
            && h in d.torrents
            && d.torrents[h] == (if h in db.torrents then db.torrents[h].(source := source, lastSeen := now)
                                 else Torrent(None, None, 0, 0, source, now, now, false))
            && d.files == db.files && d.docs == db.docs
            && (forall x | x != h :: SameRows(db, d, x))
            && (o.torrentInserted <==> h !in db.torrents) && (o.jobCreated <==> h in d.jobs && h !in db.jobs)
            && (o.peerlessSkipped <==> !peers && h !in d.jobs)
  {
    hide Requeued;
  }

  /** The event discovers h: a sample of it, or an observation that was not accepted. */
  predicate Names(e: Event, h: InfoHash)
  {
    (e.Sampled? && e.h == h) || (e.Observed? && e.h == h && !e.accepted)
  }

  /** A batch leaves the rows of a hash alone that none of its events discovers. */
  lemma {:induction false} BatchOthers(db: Db, events: seq<Event>, now: int, h: InfoHash)
    requires forall k | 0 <= k < |events| :: !Names(events[k], h)
    ensures SameRows(db, PersistBatch(db, events, now).0, h) && SameJob(db, PersistBatch(db, events, now).0, h)
  {
    hide Discover;
    if |events| > 0 {
      var e := events[|events| - 1];
      var before := PersistBatch(db, events[..|events| - 1], now).0;
      BatchOthers(db, events[..|events| - 1], now, h);
      if Discovers(e) {
        assert !Names(e, h);
        DiscoverElsewhere(before, e.h, SourceOf(e), false, now, h);
      }
    }
  }

  lemma DiscoverElsewhere(db: Db, h: InfoHash, source: string, peers: bool, now: int, x: InfoHash)
    requires x != h
    ensures SameRows(db, Discover(db, h, source, peers, now).0, x) && SameJob(db, Discover(db, h, source, peers, now).0, x)
  {
    hide Requeued;
  }

  /** The last event that discovers h decides its source; it is seen now, and first seen now if it is new. */
  lemma {:induction false} BatchTorrent(db: Db, events: seq<Event>, now: int, h: InfoHash, k: nat)
    requires k < |events| && Names(events[k], h) && forall j | k < j < |events| :: !Names(events[j], h)
    ensures var d := PersistBatch(db, events, now).0;
            && h in d.torrents && d.torrents[h].lastSeen == now
            && d.torrents[h].source == (if events[k].Sampled? then "sample_infohashes" else events[k].source)
            && d.torrents[h].firstSeen == (if h in db.torrents then db.torrents[h].firstSeen else now)
  {
    hide Discover;
    var init, e := events[..|events| - 1], events[|events| - 1];
    var before := PersistBatch(db, init, now).0;
    if k < |init| {
      BatchTorrent(db, init, now, h, k);
      assert !Names(e, h);
    } else {
      BatchFirstSeen(db, init, now, h);
    }
    if Discovers(e) {
      DiscoverTorrent(before, e.h, SourceOf(e), false, now);
      if e.h != h {
        DiscoverElsewhere(before, e.h, SourceOf(e), false, now, h);
      }
    }
  }

  lemma {:induction false} BatchFirstSeen(db: Db, events: seq<Event>, now: int, h: InfoHash)
    ensures var d := PersistBatch(db, events, now).0;
            && (h in db.torrents ==> h in d.torrents)
            && (h in d.torrents ==> d.torrents[h].firstSeen == if h in db.torrents then db.torrents[h].firstSeen else now)
  {
    hide Discover;
    if |events| > 0 {
      var e := events[|events| - 1];
      var before := PersistBatch(db, events[..|events| - 1], now).0;
      BatchFirstSeen(db, events[..|events| - 1], now, h);
      if Discovers(e) {
        DiscoverTorrent(before, e.h, SourceOf(e), false, now);
        if e.h != h {
          DiscoverElsewhere(before, e.h, SourceOf(e), false, now, h);
        }
      }
    }
  }

  /** A commit is refused exactly for a negative size or piece length, a file with an empty path or a negative size,
      or a search document over the budget. */
  lemma CommitRefused(db: Db, h: InfoHash, name: Text, pieceLength: int, totalSize: int, files: seq<File>, now: int, budget: nat)
    ensures Commit(db, h, name, pieceLength, totalSize, files, now, budget).None?
            <==> || totalSize < 0 || pieceLength < 0
                 || (exists i :: 0 <= i < |files| && (files[i].path.octets == 0 || files[i].size < 0))
                 || Document(true, Some(name), Paths(files), budget).TooLarge?
  {
    hide Document, DiscoveredJobs;
  }

  /** What a commit writes beyond the metadata: the torrent is seen now, from "dht"; when it was first seen stays, and
      so does what its job knows of attempts. Nothing changes at other hashes. */
  lemma CommitRows(db: Db, h: InfoHash, name: Text, pieceLength: int, totalSize: int, files: seq<File>, now: int, budget: nat)
    requires Commit(db, h, name, pieceLength, totalSize, files, now, budget).Some?
    ensures var d := Commit(db, h, name, pieceLength, totalSize, files, now, budget).value;
            && h in d.torrents && d.torrents[h].lastSeen == now && d.torrents[h].source == "dht"
            && d.torrents[h].firstSeen == (if h in db.torrents then db.torrents[h].firstSeen else now)
            && h in d.jobs && d.jobs[h] == (if h in db.jobs then db.jobs[h].(status := Complete) else JobRow(Complete, 0, 0))
            && forall x | x != h :: SameRows(db, d, x) && SameJob(db, d, x)
  {
    hide Document, Acceptable;
  }

  /** A recorded failure writes the job of h, unless it is complete or missing, and nothing else. */
  lemma FailRows(db: Db, h: InfoHash, status: Status, attempts: nat, next: int)
    ensures var d := FailJob(db, h, status, attempts, next);
            && (forall x :: SameRows(db, d, x)) && (forall x | x != h :: SameJob(db, d, x)) && d.totals == db.totals
            && (h in d.jobs <==> h in db.jobs)
            && (h in db.jobs ==> d.jobs[h] == match db.jobs[h].status
                                              case Complete => db.jobs[h]
                                              case _ => JobRow(status, attempts, next))
  {
  }

  /** And a job that a failure leaves queued or waiting for a retry is due from the time it names, never otherwise. */
  lemma FailedIsDue(db: Db, h: InfoHash, status: Status, attempts: nat, next: int, later: int)
    requires h in db.jobs && db.jobs[h].status != Complete
    ensures DueAt(FailJob(db, h, status, attempts, next), h, later)
            <==> match status
                 case Queued => later >= next
                 case RetryAt => later >= next
                 case _ => false
  {
    FailRows(db, h, status, attempts, next);
    hide FailJob;
  }
}
