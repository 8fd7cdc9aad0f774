/** The catalogue behind receipts: the tables are what the log of committed transactions made of them, and a
    retried batch or discovery is in them once. */
module PersistedCatalogue {
  import opened Net
  import opened Catalogue
  import opened CatalogueRuns
  import R = Receipts

  /** What a transaction reports to its client. */
  datatype Report = OfBatch(batch: BatchOutcome) | OfDiscovery(discovery: Discovery) | Silent

  type Entry = R.Entry<Op, Report>

  type History = R.Db<Op, Report>

  /** A transaction takes the time at which it runs, not that of the call that is retried. */
  function At(op: Op, now: int): Op
  {
    match op
    case Discovered(h, source, peers, _) => Discovered(h, source, peers, now)
    case Committed(h, name, pieceLength, totalSize, files, _) => Committed(h, name, pieceLength, totalSize, files, now)
    case RuntimeBatch(events, _) => RuntimeBatch(events, now)
    case _ => op
  }

  function Ops(log: seq<Entry>): seq<Op>
  {
    seq(|log|, i requires 0 <= i < |log| => At(log[i].work, log[i].at))
  }

  ghost function Tables(log: seq<Entry>, budget: nat): Db
  {
    Run(EMPTY, Ops(log), budget)
  }

  function Reports(db: Db, op: Op): Report
  {
    match op
    case RuntimeBatch(events, now) => OfBatch(PersistBatch(db, events, now).1)
    case Discovered(h, source, peers, now) => OfDiscovery(Discover(db, h, source, peers, now).1)
    case _ => Silent
  }

  ghost function ReportOf(budget: nat): (seq<Entry>, int, Op) -> Report
  {
    (log: seq<Entry>, at: int, op: Op) => Reports(Tables(log, budget), At(op, at))
  }

  lemma TablesStep(log: seq<Entry>, e: Entry, budget: nat)
    ensures Tables(log + [e], budget) == Step(Tables(log, budget), At(e.work, e.at), budget)
  {
    hide Step;
    assert Ops(log + [e])[..|log|] == Ops(log);
  }

  lemma {:induction false} RunConcat(db: Db, a: seq<Op>, b: seq<Op>, budget: nat)
    ensures Run(db, a + b, budget) == Run(Run(db, a, budget), b, budget)
  {
    hide Step;
    if |b| == 0 {
      assert a + b == a;
    } else {
      RunConcat(db, a, b[..|b| - 1], budget);
      assert (a + b)[..|a + b| - 1] == a + b[..|b| - 1];
    }
  }

  /** Whatever was committed, in whatever order: the invariants of the catalogue hold. */
  lemma TablesOk(log: seq<Entry>, budget: nat)
    requires forall i | 0 <= i < |log| :: OpOk(log[i].work)
    ensures CatalogueOk(Tables(log, budget))
  {
    hide CatalogueOk, Run;
    RunKeeps(Ops(log), budget);
  }

  // ------------------------------------------------------------ the store as written

  /** The tables and receipts of the database. The history is what the clients' protocols are proved about. */
  class PersistedStore {
    const store: Store
    var receipts: map<R.Id, R.Receipt<Report>>
    var now: int
    ghost var history: History
    const budget: nat

    constructor (budget: nat, now: int)
      ensures Valid() && fresh(store) && store.db == EMPTY && this.budget == budget && history == R.Db(now, [], map[], map[])
    {
      store := new Store();
      this.budget, this.now, receipts := budget, now, map[];
      history := R.Db(now, [], map[], map[]);
    }

    /** The tables are the fold of the log; receipts and time are those of the history. */
    ghost predicate Valid()
      reads this, store
    {
      store.db == Tables(history.log, budget) && receipts == history.receipts && now == history.now
    }

    /** persist_runtime_batch */
    method PersistRuntimeBatch(events: seq<Event>, receipt: R.Id, fate: R.Fate) returns (answer: Option<Report>)
      requires Valid()
      modifies this, store
      ensures Valid()
      ensures (history, answer) == R.PersistRuntimeBatch(old(history), receipt, RuntimeBatch(events, 0), ReportOf(budget), fate)
    {
      hide Step, Run, PersistBatch;
      if fate == R.FailBefore {
        return None;
      }
      if receipt in receipts {
        return if fate == R.Success then Some(receipts[receipt].outcome) else None;
      }
      ghost var e := R.Entry(receipt, now, RuntimeBatch(events, 0), ReportOf(budget)(history.log, now, RuntimeBatch(events, 0)));
      TablesStep(history.log, e, budget);
      BatchStep(store.db, events, now, budget);
      var outcome := store.PersistRuntimeBatch(events, now);
      receipts := receipts[receipt := R.Receipt(None, OfBatch(outcome))];
      history := R.PersistRuntimeBatch(history, receipt, RuntimeBatch(events, 0), ReportOf(budget), fate).0;
      return if fate == R.Success then Some(OfBatch(outcome)) else None;
    }

    /** persist_hash_discovery_once, as far as the catalogue tables go. */
    method PersistHashDiscoveryOnce(h: InfoHash, source: string, peers: bool, receipt: R.Id, fate: R.Fate) returns (answer: Option<Report>)
      requires Valid()
      modifies this, store
      ensures Valid()
      ensures (history, answer) == R.CommitDiscovery(old(history), receipt, Discovered(h, source, peers, 0), ReportOf(budget), fate)
    {
      hide Step, Run, Discover;
      if fate == R.FailBefore || receipt in receipts {
        return None;
      }
      ghost var op := Discovered(h, source, peers, 0);
      ghost var e := R.Entry(receipt, now, op, ReportOf(budget)(history.log, now, op));
      TablesStep(history.log, e, budget);
      DiscoverStep(store.db, h, source, peers, now, budget);
      var outcome := store.DiscoverRow(h, source, peers, now);
      receipts := receipts[receipt := R.Receipt(Some(now), OfDiscovery(outcome))];
      history := R.CommitDiscovery(history, receipt, op, ReportOf(budget), fate).0;
      return if fate == R.Success then Some(OfDiscovery(outcome)) else None;
    }

    /** acknowledge_receipt */
    method AcknowledgeReceipt(receipt: R.Id, fate: R.Fate) returns (ok: bool)
      requires Valid()
      modifies this
      ensures Valid() && (history, ok) == R.AcknowledgeReceipt(old(history), receipt, fate)
    {
      hide Tables;
      if fate == R.FailBefore {
        return false;
      }
      history := R.AcknowledgeReceipt(history, receipt, fate).0;
      if receipt in receipts && receipts[receipt].acknowledgedAt.None? {
        receipts := receipts[receipt := receipts[receipt].(acknowledgedAt := Some(now))];
      }
      return fate == R.Success;
    }

    /** remove_receipt */
    method RemoveReceipt(receipt: R.Id, fate: R.Fate)
      requires Valid()
      modifies this
      ensures Valid() && history == R.RemoveReceipt(old(history), receipt, fate)
    {
      hide Tables;
      if fate != R.FailBefore {
        receipts := receipts - {receipt};
        history := R.RemoveReceipt(history, receipt, fate);
      }
    }

    /** prune_receipts */
    method PruneReceipts()
      requires Valid()
      modifies this
      ensures Valid() && history == R.PruneReceipts(old(history))
    {
      hide Tables;
      receipts := map id | id in receipts && !R.Expired(receipts[id], now) :: receipts[id];
      history := R.PruneReceipts(history);
    }
  }

  lemma BatchStep(db: Db, events: seq<Event>, now: int, budget: nat)
    ensures Step(db, RuntimeBatch(events, now), budget) == PersistBatch(db, events, now).0
  {
    hide PersistBatch;
  }

  lemma DiscoverStep(db: Db, h: InfoHash, source: string, peers: bool, now: int, budget: nat)
    ensures Step(db, Discovered(h, source, peers, now), budget) == Discover(db, h, source, peers, now).0
  {
    hide Discover;
  }

  // ------------------------------------------------------------ once in the tables

  /** Since begin the call op has run exactly once, as transaction k: the tables are those it found, stepped by
      it and then by what others committed afterwards; its report on the tables it found was counted once. */
  ghost predicate RanOnceAt(begin: seq<Entry>, log: seq<Entry>, id: R.Id, op: Op, base: seq<Report>, metrics: seq<Report>, budget: nat, k: nat)
  {
    && |begin| <= k < |log| && begin <= log
    && (forall i | 0 <= i < |log| :: log[i].receipt == id <==> i == k)
    && var found, ran := Tables(log[..k], budget), At(op, log[k].at);
    && Tables(log, budget) == Run(Step(found, ran, budget), Ops(log[k + 1..]), budget)
    && metrics == base + [Reports(found, ran)]
  }

  ghost predicate RanOnce(begin: seq<Entry>, log: seq<Entry>, id: R.Id, op: Op, base: seq<Report>, metrics: seq<Report>, budget: nat)
  {
    exists k: nat :: RanOnceAt(begin, log, id, op, base, metrics, budget, k)
  }

  lemma TablesAround(log: seq<Entry>, k: nat, budget: nat)
    requires k < |log|
    ensures Tables(log, budget) == Run(Step(Tables(log[..k], budget), At(log[k].work, log[k].at), budget), Ops(log[k + 1..]), budget)
  {
    hide Step, Run;
    TablesStep(log[..k], log[k], budget);
    assert log[..k] + [log[k]] == log[..k + 1];
    RunConcat(EMPTY, Ops(log[..k + 1]), Ops(log[k + 1..]), budget);
    assert Ops(log[..k + 1]) + Ops(log[k + 1..]) == Ops(log);
  }

  lemma RunsOnce(begin: History, end: History, id: R.Id, op: Op, base: seq<Report>, metrics: seq<Report>, budget: nat)
    requires R.Unused(begin, id) && begin.log <= end.log && R.Count(end.log, id) == 1
    requires R.CountedOnce(end, metrics, base, id, op, ReportOf(budget))
    ensures RanOnce(begin.log, end.log, id, op, base, metrics, budget)
  {
    hide Step, Run, Tables, R.Count, Reports;
    var outcome := metrics[|base|];
    var k: nat :| R.CommittedAt(end.log, id, op, outcome, ReportOf(budget), k);
    R.CountUnique(end.log, id, k);
    R.CountNone(begin.log, id);
    assert forall i | 0 <= i < |begin.log| :: begin.log[i] == end.log[i];
    TablesAround(end.log, k, budget);
    assert metrics == base + [outcome];
    assert RanOnceAt(begin.log, end.log, id, op, base, metrics, budget, k);
  }

  /** A runtime batch flushed by the only worker that prunes is in the tables once, however long it takes. */
  lemma BatchOnce(db: History, id: R.Id, events: seq<Event>, script: seq<R.Attempt<Op, Report>>, base: seq<Report>, budget: nat)
    requires R.Unused(db, id) && R.AllForeign(script, id) && R.Unpruned(script)
    ensures var (db', c) := R.Flush(db, R.Idle(base), id, RuntimeBatch(events, 0), ReportOf(budget), script);
            c.done ==> RanOnce(db.log, db'.log, id, RuntimeBatch(events, 0), base, c.metrics, budget)
  {
    hide RanOnce, R.CountedOnce, R.Flush, R.Count;
    var op := RuntimeBatch(events, 0);
    R.FlushAlone(db, id, op, ReportOf(budget), script, base);
    R.FlushExtends(db, R.Idle(base), id, op, ReportOf(budget), script);
    var (db', c) := R.Flush(db, R.Idle(base), id, op, ReportOf(budget), script);
    if c.done {
      RunsOnce(db, db', id, op, base, c.metrics, budget);
    }
  }

  /** A discovery is in the tables once if and only if the times, fates and prunes of its calls foresee no
      pruning of its receipt before the call that answers, as they never do within a week. */
  lemma DiscoveryOnce(db: History, id: R.Id, h: InfoHash, source: string, peers: bool, script: seq<R.Attempt<Op, Report>>,
                      base: seq<Report>, budget: nat)
    requires R.Unused(db, id) && R.AllForeign(script, id)
    ensures var (db', c) := R.Discover(db, R.Idle(base), id, Discovered(h, source, peers, 0), ReportOf(budget), script);
            c.done ==>
              && (RanOnce(db.log, db'.log, id, Discovered(h, source, peers, 0), base, c.metrics, budget)
                  <==> R.Foreseen(db.now, R.Timings(script)).lost == 0)
              && (db'.now <= db.now + R.WEEK ==> R.Foreseen(db.now, R.Timings(script)).lost == 0)
  {
    hide RanOnce, R.CountedOnce, R.Discover, R.Count, R.Foreseen, R.Timings;
    var op := Discovered(h, source, peers, 0);
    R.DiscoverExactly(db, id, op, ReportOf(budget), script, base);
    R.DiscoverForeseen(db, id, op, ReportOf(budget), script, base);
    R.DiscoverExtends(db, R.Idle(base), id, op, ReportOf(budget), script);
    var (db', c) := R.Discover(db, R.Idle(base), id, op, ReportOf(budget), script);
    if c.done {
      if c.prunes == 0 {
        RunsOnce(db, db', id, op, base, c.metrics, budget);
      } else if RanOnce(db.log, db'.log, id, op, base, c.metrics, budget) {
        RanCount(db.log, db'.log, id, op, base, c.metrics, budget);
      }
    }
  }

  lemma RanCount(begin: seq<Entry>, log: seq<Entry>, id: R.Id, op: Op, base: seq<Report>, metrics: seq<Report>, budget: nat)
    requires RanOnce(begin, log, id, op, base, metrics, budget)
    ensures R.Count(log, id) == 1
  {
    hide Step, Run, Tables;
    var k: nat :| RanOnceAt(begin, log, id, op, base, metrics, budget, k);
    R.CountSingle(log, id, k);
  }

  /** Over every run of the persistence worker on the catalogue: each batch it is through with is in the tables
      once, and the report counted for it is that of this one time. */
  lemma WorkerBatches(db: History, ticks: seq<R.Tick<Op, Report>>, budget: nat)
    requires R.Orderly(db, ticks)
    ensures var w := R.RunWorker(R.Worker(db, [], [], false), ticks, ReportOf(budget));
            && (!w.busy ==> w.through == R.Batches(ticks))
            && |w.through| <= |w.metrics|
            && forall k | 0 <= k < |w.through| :: RanOnce(db.log, w.db.log, w.through[k].0, w.through[k].1, [], [w.metrics[k]], budget)
  {
    hide RanOnce, R.RunWorker, R.Count, R.Unused, R.Committed;
    R.WorkerOnce(db, ticks, ReportOf(budget));
    R.WorkerExtends(R.Worker(db, [], [], false), ticks, ReportOf(budget));
    var w := R.RunWorker(R.Worker(db, [], [], false), ticks, ReportOf(budget));
    forall k | 0 <= k < |w.through|
      ensures RanOnce(db.log, w.db.log, w.through[k].0, w.through[k].1, [], [w.metrics[k]], budget)
    {
      assert R.OnceAt(w, ReportOf(budget), k);
      assert w.through[k] in R.Batches(ticks);
      R.BatchTick(ticks, w.through[k]);
      RunsOnce(db, w.db, w.through[k].0, w.through[k].1, [], [w.metrics[k]], budget);
    }
  }
}
