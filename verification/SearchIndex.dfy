/** The search index: kept by every transaction, and rebuilt page by page from any state. */
module SearchIndex {
  import opened NodeIds
  import opened Net
  import opened Sums
  import opened Seqs
  import opened SearchText
  import opened Catalogue
  import opened CatalogueRuns
  import opened Pages

  /** The torrents that have a document: complete with a name, or with files. */
  predicate Named(db: Db, h: InfoHash)
  {
    h in db.torrents && db.torrents[h].complete && db.torrents[h].name.Some?
  }

  predicate Wanted(db: Db, h: InfoHash)
  {
    h in db.torrents && (Named(db, h) || FilesOf(db, h) != [])
  }

  ghost predicate IndexedAt(db: Db, budget: nat, h: InfoHash)
  {
    if Wanted(db, h) then h in db.docs && DocumentOf(db, h, budget) == Built(Some(db.docs[h])) else h !in db.docs
  }

  /** search_documents is exactly {h -> document(h) : h wanted}. */
  ghost predicate Indexed(db: Db, budget: nat)
  {
    forall h: InfoHash :: IndexedAt(db, budget, h)
  }

  // ------------------------------------------------------------ every transaction keeps the index

  /** What IndexedAt looks at. */
  ghost predicate SameAt(a: Db, b: Db, h: InfoHash)
  {
    && (h in a.torrents <==> h in b.torrents)
    && (h in a.torrents ==> b.torrents[h].name == a.torrents[h].name && b.torrents[h].complete == a.torrents[h].complete)
    && FilesOf(a, h) == FilesOf(b, h)
    && (h in a.docs <==> h in b.docs) && (h in a.docs ==> b.docs[h] == a.docs[h])
  }

  lemma SameIndexed(a: Db, b: Db, budget: nat, h: InfoHash)
    requires SameAt(a, b, h) && IndexedAt(a, budget, h)
    ensures IndexedAt(b, budget, h)
  {
    hide Document;
  }

  lemma DiscoverIndexed(db: Db, h: InfoHash, source: string, peers: bool, now: int, budget: nat)
    requires Consistent(db) && Indexed(db, budget)
    ensures Indexed(Discover(db, h, source, peers, now).0, budget)
  {
    hide Document, DiscoveredJobs;
    var d := Discover(db, h, source, peers, now).0;
    forall x: InfoHash
      ensures IndexedAt(d, budget, x)
    {
      assert IndexedAt(db, budget, x);
      if x in db.torrents || x != h {
        assert SameAt(db, d, x);
        SameIndexed(db, d, budget, x);
      }
    }
  }

  lemma CommitIndexed(db: Db, h: InfoHash, name: Text, pieceLength: int, totalSize: int, files: seq<File>, now: int, budget: nat)
    requires Consistent(db) && Indexed(db, budget)
    ensures var d := Commit(db, h, name, pieceLength, totalSize, files, now, budget); d.Some? ==> Indexed(d.value, budget)
  {
    var c := Discover(db, h, "dht", false, now).0;
    DiscoverIndexed(db, h, "dht", false, now, budget);
    assert h in c.torrents;
    hide Discover, Document, SameAt, IndexedAt, Filled, Refreshed, Finished, Acceptable;
    var d := Commit(db, h, name, pieceLength, totalSize, files, now, budget);
    if d.Some? {
      forall x: InfoHash
        ensures IndexedAt(d.value, budget, x)
      {
        assert IndexedAt(c, budget, x);
        if x == h {
          CommittedAt(c, h, name, pieceLength, totalSize, files, now, budget);
        } else {
          CommittedElsewhere(c, h, name, pieceLength, totalSize, files, now, budget, x);
          SameIndexed(c, d.value, budget, x);
        }
      }
    }
  }

  lemma CommittedElsewhere(c: Db, h: InfoHash, name: Text, pieceLength: int, totalSize: int, files: seq<File>, now: int, budget: nat,
                           x: InfoHash)
    requires h in c.torrents && x != h
    ensures var r := Refreshed(Filled(c, h, name, pieceLength, totalSize, files, now), h, budget);
            r.Some? ==> SameAt(c, Finished(r.value, h), x)
  {
    hide Document;
  }

  lemma CommittedAt(c: Db, h: InfoHash, name: Text, pieceLength: int, totalSize: int, files: seq<File>, now: int, budget: nat)
    requires h in c.torrents
    ensures var r := Refreshed(Filled(c, h, name, pieceLength, totalSize, files, now), h, budget);
            r.Some? ==> IndexedAt(Finished(r.value, h), budget, h)
  {
    hide Normal, Size;
    var f := Filled(c, h, name, pieceLength, totalSize, files, now);
    var r := Refreshed(f, h, budget);
    if r.Some? {
      assert DocumentOf(f, h, budget).Built? && DocumentOf(f, h, budget).doc.Some?;
      var e := Finished(r.value, h);
      assert e.torrents[h] == f.torrents[h] && FilesOf(e, h) == FilesOf(f, h);
    }
  }

  lemma {:induction false} BatchIndexed(db: Db, events: seq<Event>, now: int, budget: nat)
    requires Consistent(db) && TotalsRight(db) && Indexed(db, budget)
    ensures Indexed(PersistBatch(db, events, now).0, budget)
  {
    hide Indexed, Consistent, TotalsRight, Discover;
    if |events| > 0 {
      var init, e := events[..|events| - 1], events[|events| - 1];
      BatchIndexed(db, init, now, budget);
      BatchTotals(db, init, now);
      if Discovers(e) {
        DiscoverIndexed(PersistBatch(db, init, now).0, e.h, SourceOf(e), false, now, budget);
      }
    }
  }

  lemma SameEverywhere(a: Db, b: Db, budget: nat)
    requires Indexed(a, budget) && a.torrents == b.torrents && a.files == b.files && a.docs == b.docs
    ensures Indexed(b, budget)
  {
    forall x: InfoHash
      ensures IndexedAt(b, budget, x)
    {
      assert IndexedAt(a, budget, x);
      SameIndexed(a, b, budget, x);
    }
  }

  lemma BulkIndexed(db: Db, hs: set<InfoHash>, budget: nat)
    requires Consistent(db) && Indexed(db, budget)
    ensures Indexed(Bulk(db, hs), budget)
  {
    hide Document, Bulk, Consistent;
    forall x: InfoHash
      ensures IndexedAt(Bulk(db, hs), budget, x)
    {
      assert IndexedAt(db, budget, x);
      BulkAt(db, hs, x);
      if x !in hs {
        SameIndexed(db, Bulk(db, hs), budget, x);
      }
    }
  }

  lemma BulkAt(db: Db, hs: set<InfoHash>, x: InfoHash)
    ensures if x in hs then x !in Bulk(db, hs).torrents && x !in Bulk(db, hs).docs else SameAt(db, Bulk(db, hs), x)
  {
    hide Sum;
  }

  lemma StepIndexed(db: Db, op: Op, budget: nat)
    requires CatalogueOk(db) && Indexed(db, budget)
    ensures Indexed(Step(db, op, budget), budget)
  {
    hide Indexed, TotalsRight, Consistent, Lifecycle, Commit, Discover, Bulk, Sum;
    match op
    case Discovered(h, source, peers, now) => DiscoverIndexed(db, h, source, peers, now, budget);
    case Committed(h, name, pieceLength, totalSize, files, now) =>
      CommitIndexed(db, h, name, pieceLength, totalSize, files, now, budget);
    case RuntimeBatch(events, now) => BatchIndexed(db, events, now, budget);
    case JobFailure(h, status, attempts, next) => SameEverywhere(db, FailJob(db, h, status, attempts, next), budget);
    case Prune(cutoff) => BulkIndexed(db, Stale(db.torrents, cutoff), budget);
    case Reconcile => SameEverywhere(db, Reconciled(db), budget);
  }

  /** From an empty store, after any transactions, the index is exactly the documents of the tables. */
  lemma {:induction false} RunIndexed(ops: seq<Op>, budget: nat)
    requires forall i | 0 <= i < |ops| :: OpOk(ops[i])
    ensures Indexed(Run(EMPTY, ops, budget), budget)
  {
    hide Indexed;
    if |ops| == 0 {
      EmptyIndexed(budget);
    } else {
      RunIndexed(ops[..|ops| - 1], budget);
      RunKeeps(ops[..|ops| - 1], budget);
      StepIndexed(Run(EMPTY, ops[..|ops| - 1], budget), ops[|ops| - 1], budget);
    }
  }

  lemma EmptyIndexed(budget: nat)
    ensures Indexed(EMPTY, budget)
  {
  }

  // ------------------------------------------------------------ the rebuild

  const DOCUMENT_BYTES: nat := 16 * 1024 * 1024
  const BATCH_BYTES: nat := 1024 * 1024
  const HEADROOM: nat := 16 * 1024

  datatype SearchLimits = SearchLimits(documentBytes: nat, batchBytes: nat)

  /** SearchLimits::for_packet */
  function ForPacket(packet: nat): (r: Option<SearchLimits>)
    ensures r.Some? <==> packet >= 17408
    ensures r.Some? ==> && r.value.documentBytes + 16384 <= packet && r.value.documentBytes <= 16777216
                        && (r.value.documentBytes + 16384 == packet || r.value.documentBytes == 16777216)
                        && r.value.batchBytes <= r.value.documentBytes && r.value.batchBytes <= 1048576
                        && (r.value.batchBytes == r.value.documentBytes || r.value.batchBytes == 1048576)
  {
    var room := if packet < HEADROOM then 0 else packet - HEADROOM;
    var documentBytes := Min(room, DOCUMENT_BYTES);
    if documentBytes < 1024 then None else Some(SearchLimits(documentBytes, Min(documentBytes, BATCH_BYTES)))
  }

  predicate Beyond(after: Option<InfoHash>, h: InfoHash)
  {
    after.None? || LexLess(after.value, h)
  }

  function NamedAfter(db: Db, after: Option<InfoHash>): set<InfoHash>
  {
    set h | h in db.torrents && Named(db, h) && Beyond(after, h)
  }

  function FiledAfter(db: Db, after: Option<InfoHash>): set<InfoHash>
  {
    set h | h in db.files && Beyond(after, h)
  }

  /** The wanted hashes beyond after. */
  function Remaining(db: Db, after: Option<InfoHash>): set<InfoHash>
  {
    set h | h in db.torrents && Wanted(db, h) && Beyond(after, h)
  }

  const PAGE: nat := 128

  /** The union of the two limited queries. */
  function Page(db: Db, after: Option<InfoHash>): seq<InfoHash>
  {
    First(SetOf(First(NamedAfter(db, after), PAGE)) + SetOf(First(FiledAfter(db, after), PAGE)), PAGE)
  }

  lemma PageIsFirst(db: Db, after: Option<InfoHash>)
    requires Consistent(db)
    ensures IsFirst(Page(db, after), Remaining(db, after), PAGE)
  {
    UnionPage(NamedAfter(db, after), FiledAfter(db, after), PAGE);
    assert NamedAfter(db, after) + FiledAfter(db, after) == Remaining(db, after);
  }

  /** After a page, what remains is what lies beyond its last hash. */
  lemma PageAdvances(db: Db, after: Option<InfoHash>, page: seq<InfoHash>)
    requires IsFirst(page, Remaining(db, after), PAGE)
    ensures page == [] ==> Remaining(db, after) == {}
    ensures page != [] ==> Remaining(db, Some(page[|page| - 1])) == Remaining(db, after) - SetOf(page)
  {
    if page != [] {
      var last := page[|page| - 1];
      forall h
        ensures h in Remaining(db, Some(last)) <==> h in Remaining(db, after) && h !in SetOf(page)
      {
        Advanced(db, after, page, h);
      }
    }
  }

  lemma Advanced(db: Db, after: Option<InfoHash>, page: seq<InfoHash>, h: InfoHash)
    requires IsFirst(page, Remaining(db, after), PAGE) && page != []
    ensures h in Remaining(db, Some(page[|page| - 1])) <==> h in Remaining(db, after) && h !in SetOf(page)
  {
    var last := page[|page| - 1];
    assert last in SetOf(page);
    if h in Remaining(db, Some(last)) {
      if after.Some? {
        LexTransitive(after.value, last, h);
      }
      if h in page {
        var k :| 0 <= k < |page| && page[k] == h;
        LexTotal(h, last);
      }
    }
  }

  ghost predicate AllFit(db: Db, budget: nat)
  {
    forall h | h in db.torrents && Wanted(db, h) :: DocumentOf(db, h, budget).Built?
  }

  lemma WantedHasDocument(db: Db, h: InfoHash, budget: nat)
    requires h in db.torrents && Wanted(db, h) && DocumentOf(db, h, budget).Built?
    ensures DocumentOf(db, h, budget).doc.Some?
  {
    hide Normal, Size;
  }

  /** The index the tables call for. */
  ghost function IndexOf(db: Db, budget: nat): map<InfoHash, Doc>
    requires AllFit(db, budget)
  {
    map h | h in db.torrents && Wanted(db, h) :: DocFor(db, h, budget)
  }

  ghost function DocFor(db: Db, h: InfoHash, budget: nat): Doc
    requires h in db.torrents && Wanted(db, h) && DocumentOf(db, h, budget).Built?
  {
    WantedHasDocument(db, h, budget);
    DocumentOf(db, h, budget).doc.value
  }

  /** Rebuilding a store whose index is right changes nothing. */
  lemma IndexedIsIndexOf(db: Db, budget: nat)
    requires AllFit(db, budget)
    ensures Indexed(db, budget) <==> db.docs == IndexOf(db, budget)
  {
    hide Document, Wanted;
    if Indexed(db, budget) {
      forall h: InfoHash
        ensures h in db.docs <==> h in IndexOf(db, budget)
        ensures h in db.docs ==> db.docs[h] == IndexOf(db, budget)[h]
      {
        assert IndexedAt(db, budget, h);
        WantedExists(db, h);
      }
    }
    if db.docs == IndexOf(db, budget) {
      forall h: InfoHash
        ensures IndexedAt(db, budget, h)
      {
        WantedExists(db, h);
        if Wanted(db, h) {
          WantedHasDocument(db, h, budget);
          assert h in IndexOf(db, budget);
        }
      }
    }
  }

  lemma WantedExists(db: Db, h: InfoHash)
    ensures Wanted(db, h) ==> h in db.torrents
  {
  }

  // ------------------------------------------------------------ batches

  datatype Entry = Entry(hash: InfoHash, doc: Doc)

  function Bytes(batch: seq<Entry>): nat
  {
    if |batch| == 0 then 0 else Bytes(batch[..|batch| - 1]) + DocSize(batch[|batch| - 1].doc)
  }

  /** A batch that may be sent: within the limit, or a single document. */
  predicate Sendable(batch: seq<Entry>, limits: SearchLimits)
  {
    |batch| > 0 && (Bytes(batch) <= limits.batchBytes || |batch| == 1)
  }

  ghost predicate DistinctEntries(batch: seq<Entry>)
  {
    forall i, j | 0 <= i < j < |batch| :: batch[i].hash != batch[j].hash
  }

  function Hashes(batch: seq<Entry>): set<InfoHash>
  {
    set i | 0 <= i < |batch| :: batch[i].hash
  }

  function Inserted(docs: map<InfoHash, Doc>, batch: seq<Entry>): map<InfoHash, Doc>
  {
    if |batch| == 0 then docs else Inserted(docs, batch[..|batch| - 1])[batch[|batch| - 1].hash := batch[|batch| - 1].doc]
  }

  /** The rows of batch replace those with their hashes; the other rows stay. */
  ghost predicate ReplacedBy(docs: map<InfoHash, Doc>, after: map<InfoHash, Doc>, batch: seq<Entry>)
  {
    && after.Keys == docs.Keys + Hashes(batch)
    && (forall i | 0 <= i < |batch| :: batch[i].hash in after && after[batch[i].hash] == batch[i].doc)
    && (forall h | h in docs && h !in Hashes(batch) :: h in after && after[h] == docs[h])
  }

  lemma HashesAppend(batch: seq<Entry>, e: Entry)
    ensures Hashes(batch + [e]) == Hashes(batch) + {e.hash}
  {
    var all := batch + [e];
    forall h
      ensures h in Hashes(all) <==> h in Hashes(batch) || h == e.hash
    {
      if h in Hashes(batch) {
        var i :| 0 <= i < |batch| && batch[i].hash == h;
        assert all[i].hash == h;
      }
      assert all[|batch|].hash == e.hash;
    }
  }

  lemma {:induction false} InsertedReplaces(docs: map<InfoHash, Doc>, batch: seq<Entry>)
    requires DistinctEntries(batch)
    ensures ReplacedBy(docs, Inserted(docs, batch), batch)
  {
    hide Hashes, ReplacedBy;
    if |batch| == 0 {
      NothingReplaced(docs, batch);
    } else {
      var init, last := batch[..|batch| - 1], batch[|batch| - 1];
      InsertedReplaces(docs, init);
      assert batch == init + [last];
      ReplacedAppend(docs, Inserted(docs, init), init, last);
    }
  }

  lemma NothingReplaced(docs: map<InfoHash, Doc>, batch: seq<Entry>)
    requires |batch| == 0
    ensures ReplacedBy(docs, docs, batch)
  {
  }

  lemma ReplacedAppend(docs: map<InfoHash, Doc>, after: map<InfoHash, Doc>, batch: seq<Entry>, e: Entry)
    requires ReplacedBy(docs, after, batch) && DistinctEntries(batch + [e])
    ensures ReplacedBy(docs, after[e.hash := e.doc], batch + [e])
  {
    HashesAppend(batch, e);
    hide Hashes;
    assert forall i | 0 <= i < |batch| :: (batch + [e])[i] == batch[i];
    assert (batch + [e])[|batch|] == e;
  }

  lemma DeleteThenInsert(docs: map<InfoHash, Doc>, after: map<InfoHash, Doc>, batch: seq<Entry>)
    requires ReplacedBy(docs - Hashes(batch), after, batch)
    ensures ReplacedBy(docs, after, batch)
  {
  }

  /** replace_search_documents: one transaction that deletes the batch's rows and inserts them anew. */
  method ReplaceSearchDocuments(store: Store, batch: seq<Entry>, ghost limits: SearchLimits)
    requires Sendable(batch, limits) && DistinctEntries(batch)
    modifies store
    ensures store.db == old(store.db).(docs := store.db.docs)
    ensures ReplacedBy(old(store.db).docs, store.db.docs, batch)
  {
    var docs := store.db.docs - Hashes(batch);
    ghost var kept := docs;
    var i := 0;
    while i < |batch|
      invariant 0 <= i <= |batch| && docs == Inserted(kept, batch[..i])
    {
      assert batch[..i + 1][..i] == batch[..i];
      docs := docs[batch[i].hash := batch[i].doc];
      i := i + 1;
    }
    assert batch[..|batch|] == batch;
    InsertedReplaces(kept, batch);
    DeleteThenInsert(store.db.docs, docs, batch);
    store.db := store.db.(docs := docs);
  }

  // ------------------------------------------------------------ one page

  /** Only documents have changed since begin, only wanted hashes have one, and those of done are right. */
  ghost predicate Progress(db: Db, begin: Db, budget: nat, done: set<InfoHash>)
  {
    && db == begin.(docs := db.docs)
    && (forall h | h in db.docs :: Wanted(begin, h))
    && (forall h | h in done :: DoneAt(db.docs, begin, budget, h))
  }

  ghost predicate DoneAt(docs: map<InfoHash, Doc>, begin: Db, budget: nat, h: InfoHash)
  {
    Wanted(begin, h) && h in docs && DocumentOf(begin, h, budget) == Built(Some(docs[h]))
  }

  /** Entries that wait to be sent are documents of begin. */
  ghost predicate Pending(batch: seq<Entry>, begin: Db, budget: nat)
  {
    && DistinctEntries(batch)
    && forall i | 0 <= i < |batch| :: Wanted(begin, batch[i].hash) && DocumentOf(begin, batch[i].hash, budget) == Built(Some(batch[i].doc))
  }

  lemma FlushProgress(db: Db, after: Db, begin: Db, budget: nat, done: set<InfoHash>, batch: seq<Entry>)
    requires Progress(db, begin, budget, done) && Pending(batch, begin, budget)
    requires after == db.(docs := after.docs) && ReplacedBy(db.docs, after.docs, batch)
    ensures Progress(after, begin, budget, done + Hashes(batch))
  {
    hide Wanted, Document;
    forall h | h in done + Hashes(batch)
      ensures DoneAt(after.docs, begin, budget, h)
    {
      if h !in Hashes(batch) {
        assert DoneAt(db.docs, begin, budget, h);
      }
    }
    forall h | h in after.docs
      ensures Wanted(begin, h)
    {
      assert h in db.docs || h in Hashes(batch);
    }
  }

  lemma AppendPending(batch: seq<Entry>, e: Entry, begin: Db, budget: nat)
    requires Pending(batch, begin, budget) && e.hash !in Hashes(batch)
    requires Wanted(begin, e.hash) && DocumentOf(begin, e.hash, budget) == Built(Some(e.doc))
    ensures Pending(batch + [e], begin, budget)
    ensures Hashes(batch + [e]) == Hashes(batch) + {e.hash} && Bytes(batch + [e]) == Bytes(batch) + DocSize(e.doc)
  {
    hide Wanted, Document;
    HashesAppend(batch, e);
    assert forall i | 0 <= i < |batch| :: batch[i].hash in Hashes(batch);
    assert (batch + [e])[..|batch|] == batch;
  }

  /** Flushing what is pending, if anything. */
  method Flush(store: Store, batch: seq<Entry>, ghost limits: SearchLimits, ghost begin: Db, ghost done: set<InfoHash>)
    requires Sendable(batch, limits) && Pending(batch, begin, limits.documentBytes)
    requires Progress(store.db, begin, limits.documentBytes, done)
    modifies store
    ensures Progress(store.db, begin, limits.documentBytes, done + Hashes(batch))
  {
    hide Progress;
    ReplaceSearchDocuments(store, batch, limits);
    FlushProgress(old(store.db), store.db, begin, limits.documentBytes, done, batch);
  }

  /** search_document for one wanted hash: a document, or one that is too large. */
  method BuildDocument(store: Store, h: InfoHash, limits: SearchLimits, ghost begin: Db, ghost done: set<InfoHash>) returns (built: Built)
    requires Progress(store.db, begin, limits.documentBytes, done) && Wanted(begin, h)
    ensures h in begin.torrents && built == DocumentOf(begin, h, limits.documentBytes)
    ensures built.Built? ==> built.doc.Some?
    ensures built.TooLarge? ==> !AllFit(begin, limits.documentBytes) && store.db == begin.(docs := store.db.docs)
  {
    hide Document;
    var row := store.db.torrents[h];
    built := SearchDocument(row.complete, row.name, Paths(FilesOf(store.db, h)), limits.documentBytes);
    if built.Built? {
      WantedHasDocument(begin, h, limits.documentBytes);
    }
  }

  /** Sending the batch if it is full, and starting a new one. */
  method SendIf(full: bool, store: Store, documents0: seq<Entry>, limits: SearchLimits, ghost begin: Db, ghost done0: set<InfoHash>)
    returns (documents: seq<Entry>, sent: nat, ghost done: set<InfoHash>)
    requires full ==> Sendable(documents0, limits)
    requires Progress(store.db, begin, limits.documentBytes, done0) && Pending(documents0, begin, limits.documentBytes)
    modifies store
    ensures Progress(store.db, begin, limits.documentBytes, done) && Pending(documents, begin, limits.documentBytes)
    ensures documents == if full then [] else documents0
    ensures sent == if full then |documents0| else 0
    ensures done + Hashes(documents) == done0 + Hashes(documents0)
    ensures full ==> Hashes(documents) == {} && Bytes(documents) == 0
  {
    hide Pending, Hashes, Progress, Sendable;
    documents, sent, done := documents0, 0, done0;
    if full {
      NothingPending(begin, limits.documentBytes);
      Flush(store, documents, limits, begin, done);
      done := done + Hashes(documents);
      sent := |documents|;
      documents := [];
      assert done + Hashes(documents) == done;
    }
  }

  /** One more document: sent with or before the others when the batch is full. */
  method Collect(store: Store, documents0: seq<Entry>, bytes0: nat, document: Entry, limits: SearchLimits,
                 ghost begin: Db, ghost done0: set<InfoHash>)
    returns (documents: seq<Entry>, bytes: nat, sent: nat, ghost done: set<InfoHash>)
    requires Progress(store.db, begin, limits.documentBytes, done0)
    requires Pending(documents0, begin, limits.documentBytes) && bytes0 == Bytes(documents0)
    requires documents0 == [] || bytes0 < limits.batchBytes
    requires document.hash !in Hashes(documents0) && Wanted(begin, document.hash)
    requires DocumentOf(begin, document.hash, limits.documentBytes) == Built(Some(document.doc))
    modifies store
    ensures Progress(store.db, begin, limits.documentBytes, done)
    ensures Pending(documents, begin, limits.documentBytes) && bytes == Bytes(documents)
    ensures documents == [] || bytes < limits.batchBytes
    ensures done + Hashes(documents) == done0 + Hashes(documents0) + {document.hash}
    ensures Hashes(documents) <= Hashes(documents0) + {document.hash}
    ensures sent + |documents| == |documents0| + 1
  {
    hide Pending, Document, DocumentOf, DocSize, Hashes, Wanted, Progress, Bytes;
    var size := DocSize(document.doc);
    var full := documents0 != [] && bytes0 + size > limits.batchBytes;
    documents, sent, done := SendIf(full, store, documents0, limits, begin, done0);
    bytes := if full then 0 else bytes0;
    AppendPending(documents, document, begin, limits.documentBytes);
    ghost var all := done + Hashes(documents) + {document.hash};
    bytes := bytes + size;
    documents := documents + [document];
    assert done + Hashes(documents) == all;
    full := bytes >= limits.batchBytes;
    var more: nat;
    documents, more, done := SendIf(full, store, documents, limits, begin, done);
    bytes := if full then 0 else bytes;
    sent := sent + more;
  }

  /** The body of the rebuild for one page: documents collect until the batch is full. */
  method RebuildPage(store: Store, page: seq<InfoHash>, limits: SearchLimits, ghost begin: Db, ghost done0: set<InfoHash>)
    returns (ok: bool, rebuilt: nat)
    requires NoDup(page) && AllWanted(page, begin)
    requires Progress(store.db, begin, limits.documentBytes, done0)
    modifies store
    ensures ok ==> Progress(store.db, begin, limits.documentBytes, done0 + SetOf(page)) && rebuilt == |page|
    ensures !ok ==> !AllFit(begin, limits.documentBytes)
    ensures store.db == begin.(docs := store.db.docs)
  {
    hide Pending, Document, DocumentOf, DocSize, Hashes, Wanted, SetOf, Progress, NoDup;
    var documents: seq<Entry> := [];
    var bytes := 0;
    ghost var done := done0;
    rebuilt := 0;
    NothingPending(begin, limits.documentBytes);
    PageStart(done0, page);
    var i := 0;
    while i < |page|
      invariant 0 <= i <= |page| && rebuilt + |documents| == i
      invariant Progress(store.db, begin, limits.documentBytes, done)
      invariant Pending(documents, begin, limits.documentBytes) && bytes == Bytes(documents)
      invariant documents == [] || bytes < limits.batchBytes
      invariant done + Hashes(documents) == done0 + SetOf(page[..i])
      invariant Hashes(documents) <= SetOf(page[..i])
    {
      var h := page[i];
      assert Wanted(begin, h) by {
        assert h in page;
      }
      PageStep(page, i);
      var built := BuildDocument(store, h, limits, begin, done);
      if built.TooLarge? {
        return false, rebuilt;
      }
      var sent: nat;
      ghost var before := Hashes(documents);
      documents, bytes, sent, done := Collect(store, documents, bytes, Entry(h, built.doc.value), limits, begin, done);
      rebuilt := rebuilt + sent;
      i := i + 1;
    }
    assert page[..|page|] == page;
    if documents != [] {
      Flush(store, documents, limits, begin, done);
      done := done + Hashes(documents);
      rebuilt := rebuilt + |documents|;
    } else {
      assert done + Hashes(documents) == done;
    }
    ProgressTables(store.db, begin, limits.documentBytes, done);
    ok := true;
  }

  lemma ProgressTables(db: Db, begin: Db, budget: nat, done: set<InfoHash>)
    requires Progress(db, begin, budget, done)
    ensures db == begin.(docs := db.docs)
  {
  }

  ghost predicate AllWanted(page: seq<InfoHash>, begin: Db)
  {
    forall h | h in page :: Wanted(begin, h)
  }

  lemma NothingPending(begin: Db, budget: nat)
    ensures Pending([], begin, budget) && Hashes([]) == {} && Bytes([]) == 0
  {
  }

  lemma PageStart(done: set<InfoHash>, page: seq<InfoHash>)
    ensures done == done + SetOf(page[..0])
  {
  }

  lemma PageStep(page: seq<InfoHash>, i: nat)
    requires NoDup(page) && i < |page|
    ensures page[i] !in SetOf(page[..i]) && SetOf(page[..i + 1]) == SetOf(page[..i]) + {page[i]}
  {
    assert page[..i + 1] == page[..i] + [page[i]];
  }

  // ------------------------------------------------------------ the whole rebuild

  function Kept(db: Db): map<InfoHash, Doc>
  {
    map h | h in db.docs && Wanted(db, h) :: db.docs[h]
  }

  ghost predicate Visits(visited: seq<InfoHash>, db: Db, after: Option<InfoHash>)
  {
    && NoDup(visited)
    && SetOf(visited) + Remaining(db, after) == Remaining(db, None)
    && SetOf(visited) !! Remaining(db, after)
  }

  /** rebuild_search_index with no other writer. From any index, it ends with exactly the documents the
      tables call for, having visited each wanted hash once; or it stops at a document too large. */
  method RebuildSearchIndex(store: Store, packet: nat) returns (ok: bool, visited: seq<InfoHash>, rebuilt: nat)
    requires Consistent(store.db)
    modifies store
    ensures ForPacket(packet).None? ==> !ok && store.db == old(store.db)
    ensures store.db == old(store.db).(docs := store.db.docs)
    ensures ok <==> ForPacket(packet).Some? && AllFit(old(store.db), ForPacket(packet).value.documentBytes)
    ensures ok ==> store.db.docs == IndexOf(old(store.db), ForPacket(packet).value.documentBytes)
    ensures ok ==> NoDup(visited) && SetOf(visited) == Remaining(old(store.db), None) && rebuilt == |visited|
  {
    hide Progress, Wanted, Remaining, IsFirst, NoDup, SetOf, Consistent, ForPacket;
    visited, rebuilt := [], 0;
    if ForPacket(packet).None? {
      return false, [], 0;
    }
    var limits := ForPacket(packet).value;
    ghost var begin := store.db;
    store.db := store.db.(docs := Kept(store.db));
    RebuildStart(begin, limits.documentBytes);
    var after: Option<InfoHash> := None;
    while true
      invariant store.db == begin.(docs := store.db.docs)
      invariant Progress(store.db, begin, limits.documentBytes, SetOf(visited))
      invariant Visits(visited, begin, after) && rebuilt == |visited|
      decreases |Remaining(begin, after)|
    {
      SamePage(begin, store.db, after);
      var hashes := Page(store.db, after);
      PageIsFirst(begin, after);
      PageAdvances(begin, after, hashes);
      if hashes == [] {
        RebuildEnd(store.db, begin, limits.documentBytes, visited, after);
        return true, visited, rebuilt;
      }
      PageFacts(begin, after, hashes, visited);
      var rows: nat;
      ok, rows := RebuildPage(store, hashes, limits, begin, SetOf(visited));
      if !ok {
        return false, visited, rebuilt;
      }
      rebuilt := rebuilt + rows;
      VisitMore(begin, after, hashes, visited);
      visited := visited + hashes;
      after := Some(hashes[|hashes| - 1]);
    }
  }

  lemma RebuildStart(begin: Db, budget: nat)
    ensures Progress(begin.(docs := Kept(begin)), begin, budget, SetOf([])) && Visits([], begin, None)
  {
  }

  lemma SamePage(a: Db, b: Db, after: Option<InfoHash>)
    requires b == a.(docs := b.docs)
    ensures Page(a, after) == Page(b, after)
  {
    assert NamedAfter(a, after) == NamedAfter(b, after);
    assert FiledAfter(a, after) == FiledAfter(b, after);
  }

  lemma PageFacts(db: Db, after: Option<InfoHash>, page: seq<InfoHash>, visited: seq<InfoHash>)
    requires IsFirst(page, Remaining(db, after), PAGE)
    ensures NoDup(page) && AllWanted(page, db) && SetOf(page) <= Remaining(db, after)
  {
    AscendsNoDup(page);
    forall h | h in page
      ensures Wanted(db, h)
    {
      assert h in SetOf(page);
    }
  }

  lemma VisitMore(db: Db, after: Option<InfoHash>, page: seq<InfoHash>, visited: seq<InfoHash>)
    requires Visits(visited, db, after) && NoDup(page) && SetOf(page) <= Remaining(db, after) && page != []
    requires Remaining(db, Some(page[|page| - 1])) == Remaining(db, after) - SetOf(page)
    ensures Visits(visited + page, db, Some(page[|page| - 1])) && SetOf(visited + page) == SetOf(visited) + SetOf(page)
    ensures |Remaining(db, Some(page[|page| - 1]))| < |Remaining(db, after)|
  {
    hide Remaining, SetOf, NoDup;
    var last := Some(page[|page| - 1]);
    NoDupConcat(visited, page);
    NonEmptySet(page);
    Smaller(Remaining(db, after), SetOf(page));
  }

  lemma NonEmptySet(page: seq<InfoHash>)
    requires page != []
    ensures SetOf(page) != {}
  {
    assert page[0] in SetOf(page);
  }

  lemma Smaller(s: set<InfoHash>, t: set<InfoHash>)
    requires t <= s && t != {}
    ensures |s - t| < |s|
  {
    assert s == (s - t) + t;
    assert |s| == |s - t| + |t|;
  }

  lemma RebuildEnd(db: Db, begin: Db, budget: nat, visited: seq<InfoHash>, after: Option<InfoHash>)
    requires Progress(db, begin, budget, SetOf(visited)) && Visits(visited, begin, after) && Remaining(begin, after) == {}
    ensures SetOf(visited) == Remaining(begin, None)
    ensures AllFit(begin, budget) && db.docs == IndexOf(begin, budget)
  {
    hide Document, Wanted;
    forall h | h in begin.torrents && Wanted(begin, h)
      ensures DoneAt(db.docs, begin, budget, h)
    {
      assert h in Remaining(begin, None);
    }
    forall h | h in begin.torrents && Wanted(begin, h)
      ensures DocumentOf(begin, h, budget).Built?
    {
      assert DoneAt(db.docs, begin, budget, h);
    }
    forall h: InfoHash
      ensures h in db.docs <==> h in IndexOf(begin, budget)
      ensures h in db.docs ==> db.docs[h] == IndexOf(begin, budget)[h]
    {
      WantedExists(begin, h);
      if h in db.docs {
        assert Wanted(begin, h);
        assert DoneAt(db.docs, begin, budget, h);
      }
    }
  }

  /** On a store the transactions have produced, the rebuild finds the index right and changes nothing. */
  method RebuildIsIdle(store: Store, packet: nat)
    requires Consistent(store.db) && ForPacket(packet).Some? && Indexed(store.db, ForPacket(packet).value.documentBytes)
    modifies store
    ensures store.db == old(store.db)
  {
    var budget := ForPacket(packet).value.documentBytes;
    IndexedFits(store.db, budget);
    IndexedIsIndexOf(store.db, budget);
    hide Consistent, Indexed, IndexOf, AllFit, ForPacket;
    var ok, visited, rebuilt := RebuildSearchIndex(store, packet);
  }

  lemma IndexedFits(db: Db, budget: nat)
    requires Indexed(db, budget)
    ensures AllFit(db, budget)
  {
    hide Document, Wanted;
    forall h | h in db.torrents && Wanted(db, h)
      ensures DocumentOf(db, h, budget).Built?
    {
      assert IndexedAt(db, budget, h);
    }
  }
}
