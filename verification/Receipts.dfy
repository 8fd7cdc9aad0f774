/** Exactly-once persistence: receipts, the clients that retry under one, and the pruning of receipts. */
module Receipts {
  import opened Net

  type Id = nat

  const WEEK: int := 7 * 86400

  /** A database call fails before its commit, commits and loses the reply, or succeeds. */
  datatype Fate = FailBefore | ReplyLost | Success

  datatype Receipt<O> = Receipt(acknowledgedAt: Option<int>, outcome: O)

  /** A committed transaction: under which receipt and when, what it did, what it reported. */
  datatype Entry<W, O> = Entry(receipt: Id, at: int, work: W, outcome: O)

  /** What a transaction reports, from the history it finds, the time and its work. */
  type Reporter<!W, !O> = (seq<Entry<W, O>>, int, W) -> O

  /** The tables are what the log of committed transactions made of them. The last field is history: how
      often pruning removed each receipt. */
  datatype Db<W, O> = Db(now: int, log: seq<Entry<W, O>>, receipts: map<Id, Receipt<O>>, pruned: map<Id, nat>)

  function Pruned<W, O>(db: Db<W, O>, id: Id): nat
  {
    if id in db.pruned then db.pruned[id] else 0
  }

  /** How many committed transactions carry id. */
  function Count<W, O>(log: seq<Entry<W, O>>, id: Id): nat
  {
    if |log| == 0 then 0 else Count(log[..|log| - 1], id) + if log[|log| - 1].receipt == id then 1 else 0
  }

  // ------------------------------------------------------------ everybody else

  /** What happens between two calls of a client: time passes, others commit and change their receipts, and
      old acknowledged receipts may be pruned. */
  datatype Meantime<W, O> = Meantime(at: int, others: seq<Entry<W, O>>, dropped: set<Id>, added: map<Id, Receipt<O>>, prune: bool)

  ghost predicate Foreign<W, O>(m: Meantime<W, O>, id: Id)
  {
    id !in m.dropped && id !in m.added && forall i | 0 <= i < |m.others| :: m.others[i].receipt != id
  }

  /** DELETE ... WHERE acknowledged_at < now - 7 days; a null acknowledged_at is never below anything. */
  predicate Expired<O>(r: Receipt<O>, now: int)
  {
    r.acknowledgedAt.Some? && r.acknowledgedAt.value < now - WEEK
  }

  function Kept<O>(receipts: map<Id, Receipt<O>>, now: int): map<Id, Receipt<O>>
  {
    map id | id in receipts && !Expired(receipts[id], now) :: receipts[id]
  }

  function Tally<O>(receipts: map<Id, Receipt<O>>, now: int, pruned: map<Id, nat>): map<Id, nat>
  {
    map id | id in receipts.Keys + pruned.Keys ::
      (if id in pruned then pruned[id] else 0) + (if id in receipts && Expired(receipts[id], now) then 1 else 0)
  }

  function PruneReceipts<W, O>(db: Db<W, O>): Db<W, O>
  {
    Db(db.now, db.log, Kept(db.receipts, db.now), Tally(db.receipts, db.now, db.pruned))
  }

  function Pass<W, O>(db: Db<W, O>, m: Meantime<W, O>): Db<W, O>
  {
    var later := Db(Later(db.now, m.at), db.log + m.others, (db.receipts - m.dropped) + m.added, db.pruned);
    if m.prune then PruneReceipts(later) else later
  }

  function Later(a: int, b: int): int
  {
    if a < b then b else a
  }

  // ------------------------------------------------------------ the runtime batch

  /** persist_runtime_batch: a known receipt is answered from the row, a new one commits the work. */
  function PersistRuntimeBatch<W, O>(db: Db<W, O>, id: Id, work: W, report: Reporter<W, O>, fate: Fate)
    : (Db<W, O>, Option<O>)
  {
    if fate == FailBefore then (db, None)
    else if id in db.receipts then (db, if fate == Success then Some(db.receipts[id].outcome) else None)
    else
      var outcome := report(db.log, db.now, work);
      (db.(log := db.log + [Entry(id, db.now, work, outcome)], receipts := db.receipts[id := Receipt(None, outcome)]),
       if fate == Success then Some(outcome) else None)
  }

  /** acknowledge_receipt: an UPDATE, which succeeds whether or not the row is there. */
  function AcknowledgeReceipt<W, O>(db: Db<W, O>, id: Id, fate: Fate): (Db<W, O>, bool)
  {
    if fate == FailBefore then (db, false)
    else
      var acknowledged := if id in db.receipts && db.receipts[id].acknowledgedAt.None?
        then db.(receipts := db.receipts[id := db.receipts[id].(acknowledgedAt := Some(db.now))]) else db;
      (acknowledged, fate == Success)
  }

  /** The retrying client: whether it has counted an outcome, the outcomes it has counted, whether it is
      through, and as history how often its receipt had been pruned when a persist call last answered it. */
  datatype Client<O> = Client(applied: bool, metrics: seq<O>, done: bool, prunes: nat)

  /** The three calls of an attempt at most, with their fates, and what happens before each. */
  datatype Attempt<W, O> = Attempt(before: Meantime<W, O>, first: Fate, between: Meantime<W, O>, second: Fate,
                                   last: Meantime<W, O>, third: Fate)

  /** One turn of flush_stats_batch: first is the fate of the batch, second that of the acknowledgement. */
  function TryFlush<W, O>(db: Db<W, O>, c: Client<O>, id: Id, work: W, report: Reporter<W, O>, a: Attempt<W, O>)
    : (Db<W, O>, Client<O>)
  {
    var (db1, outcome) := PersistRuntimeBatch(Pass(db, a.before), id, work, report, a.first);
    if outcome.None? then (db1, c)
    else
      var metrics := if c.applied then c.metrics else c.metrics + [outcome.value];
      var (db2, acknowledged) := AcknowledgeReceipt(Pass(db1, a.between), id, a.second);
      (db2, Client(true, metrics, acknowledged, Pruned(db1, id)))
  }

  function Flush<W, O>(db: Db<W, O>, c: Client<O>, id: Id, work: W, report: Reporter<W, O>, script: seq<Attempt<W, O>>)
    : (Db<W, O>, Client<O>)
  {
    if |script| == 0 then (db, c)
    else
      var (db1, c1) := Flush(db, c, id, work, report, script[..|script| - 1]);
      if c1.done then (db1, c1) else TryFlush(db1, c1, id, work, report, script[|script| - 1])
  }

  // ------------------------------------------------------------ discoveries

  /** persist_hash_discovery_once: the receipt's INSERT fails when the row is there. A discovery's receipt is
      stored already acknowledged. */
  function CommitDiscovery<W, O>(db: Db<W, O>, id: Id, work: W, report: Reporter<W, O>, fate: Fate): (Db<W, O>, Option<O>)
  {
    if fate == FailBefore || id in db.receipts then (db, None)
    else
      var outcome := report(db.log, db.now, work);
      (db.(log := db.log + [Entry(id, db.now, work, outcome)], receipts := db.receipts[id := Receipt(Some(db.now), outcome)]),
       if fate == Success then Some(outcome) else None)
  }

  function RemoveReceipt<W, O>(db: Db<W, O>, id: Id, fate: Fate): Db<W, O>
  {
    if fate == FailBefore then db else db.(receipts := db.receipts - {id})
  }

  /** persist_hash_discovery_with_receipt: replay, or commit and then remove the receipt. */
  function TryDiscover<W, O>(db: Db<W, O>, c: Client<O>, id: Id, work: W, report: Reporter<W, O>, a: Attempt<W, O>)
    : (Db<W, O>, Client<O>)
  {
    var db0 := Pass(db, a.before);
    if a.first != Success then (db0, c)
    else if id in db0.receipts then (db0, Client(true, c.metrics + [db0.receipts[id].outcome], true, Pruned(db0, id)))
    else
      var (db1, outcome) := CommitDiscovery(Pass(db0, a.between), id, work, report, a.second);
      if outcome.None? then (db1, c)
      else (RemoveReceipt(Pass(db1, a.last), id, a.third), Client(true, c.metrics + [outcome.value], true, Pruned(db1, id)))
  }

  function Discover<W, O>(db: Db<W, O>, c: Client<O>, id: Id, work: W, report: Reporter<W, O>, script: seq<Attempt<W, O>>)
    : (Db<W, O>, Client<O>)
  {
    if |script| == 0 then (db, c)
    else
      var (db1, c1) := Discover(db, c, id, work, report, script[..|script| - 1]);
      if c1.done then (db1, c1) else TryDiscover(db1, c1, id, work, report, script[|script| - 1])
  }

  // ------------------------------------------------------------ accounting

  /** Transaction k carries id, did this work and reported this outcome on the tables it found. */
  ghost predicate CommittedAt<W, O>(log: seq<Entry<W, O>>, id: Id, work: W, outcome: O, report: Reporter<W, O>, k: nat)
  {
    && k < |log| && log[k].receipt == id && log[k].work == work && log[k].outcome == outcome
    && outcome == report(log[..k], log[k].at, work)
  }

  /** Some transaction under id did this work and reported this outcome. */
  ghost predicate Committed<W(!new), O(!new)>(log: seq<Entry<W, O>>, id: Id, work: W, outcome: O, report: Reporter<W, O>)
  {
    exists k: nat :: CommittedAt(log, id, work, outcome, report, k)
  }

  lemma {:induction false} CountConcat<W, O>(a: seq<Entry<W, O>>, b: seq<Entry<W, O>>, id: Id)
    requires forall i | 0 <= i < |b| :: b[i].receipt != id
    ensures Count(a + b, id) == Count(a, id)
  {
    if |b| == 0 {
      assert a + b == a;
    } else {
      var init := b[..|b| - 1];
      CountConcat(a, init, id);
      assert (a + b)[..|a + b| - 1] == a + init;
    }
  }

  lemma CommittedLonger<W(!new), O(!new)>(a: seq<Entry<W, O>>, b: seq<Entry<W, O>>, id: Id, work: W, outcome: O,
                                          report: Reporter<W, O>)
    requires Committed(a, id, work, outcome, report)
    ensures Committed(a + b, id, work, outcome, report)
  {
    var k: nat :| CommittedAt(a, id, work, outcome, report, k);
    assert (a + b)[k] == a[k] && (a + b)[..k] == a[..k];
    assert CommittedAt(a + b, id, work, outcome, report, k);
  }

  lemma CommitNow<W(!new), O(!new)>(log: seq<Entry<W, O>>, id: Id, at: int, work: W, report: Reporter<W, O>)
    ensures var e := Entry(id, at, work, report(log, at, work));
            Committed(log + [e], id, work, e.outcome, report) && Count(log + [e], id) == Count(log, id) + 1
  {
    var e := Entry(id, at, work, report(log, at, work));
    assert (log + [e])[..|log|] == log;
    assert CommittedAt(log + [e], id, work, e.outcome, report, |log|);
  }

  /** Between calls: the receipt is there exactly as often as the work was committed and not pruned, what it
      stores was reported by such a commit, and it was acknowledged no earlier than start. */
  ghost predicate Settled<W(!new), O(!new)>(db: Db<W, O>, id: Id, work: W, report: Reporter<W, O>, start: int)
  {
    && Count(db.log, id) == Pruned(db, id) + (if id in db.receipts then 1 else 0)
    && (id in db.receipts ==> Committed(db.log, id, work, db.receipts[id].outcome, report))
    && (id in db.receipts && db.receipts[id].acknowledgedAt.Some? ==> start <= db.receipts[id].acknowledgedAt.value)
    && start <= db.now
    && (Pruned(db, id) > 0 ==> db.now > start + WEEK)
  }

  predicate Recent(at: Option<int>, cutoff: int)
  {
    at.Some? ==> at.value >= cutoff
  }

  /** Pruning removes exactly the receipts acknowledged more than 604800 seconds ago, and changes no other row. */
  lemma PruneExact<W, O>(db: Db<W, O>, id: Id)
    ensures var db' := PruneReceipts(db);
            && (id in db'.receipts <==> id in db.receipts && Recent(db.receipts[id].acknowledgedAt, db.now - 604800))
            && (id in db'.receipts ==> db'.receipts[id] == db.receipts[id])
            && Pruned(db', id) == Pruned(db, id) + (if id in db.receipts && id !in db'.receipts then 1 else 0)
            && db'.log == db.log && db'.now == db.now
  {
  }

  /** A call under a receipt that is there answers what it stores and commits nothing; under a new one it commits
      the work once, with a receipt nobody has acknowledged. A call that fails before its commit does nothing,
      and only one whose reply arrives answers. */
  lemma PersistExact<W, O>(db: Db<W, O>, id: Id, work: W, report: Reporter<W, O>, fate: Fate)
    ensures var (db', answer) := PersistRuntimeBatch(db, id, work, report, fate);
            && (fate == FailBefore || id in db.receipts ==> db' == db)
            && (fate != FailBefore && id !in db.receipts ==>
                  && |db'.log| == |db.log| + 1 && db.log <= db'.log
                  && db'.log[|db.log|].receipt == id && db'.log[|db.log|].at == db.now && db'.log[|db.log|].work == work
                  && id in db'.receipts && db'.receipts[id].acknowledgedAt == None
                  && db'.receipts[id].outcome == db'.log[|db.log|].outcome == report(db.log, db.now, work)
                  && db'.receipts - {id} == db.receipts - {id})
            && (answer.Some? <==> fate == Success)
            && (answer.Some? ==> id in db'.receipts && answer.value == db'.receipts[id].outcome)
  {
  }

  /** An acknowledgement sets the time of a receipt that has none, once, and touches nothing else. */
  lemma AcknowledgeExact<W, O>(db: Db<W, O>, id: Id, fate: Fate)
    ensures var (db', ok) := AcknowledgeReceipt(db, id, fate);
            && (ok <==> fate == Success) && db'.log == db.log && db'.now == db.now
            && db'.receipts.Keys == db.receipts.Keys && db'.receipts - {id} == db.receipts - {id}
            && (id in db.receipts ==>
                  && db'.receipts[id].outcome == db.receipts[id].outcome
                  && db'.receipts[id].acknowledgedAt == if fate == FailBefore || db.receipts[id].acknowledgedAt.Some?
                                                         then db.receipts[id].acknowledgedAt else Some(db.now))
  {
  }

  /** Removing a receipt leaves the other rows and the tables as they are. */
  lemma RemoveExact<W, O>(db: Db<W, O>, id: Id, fate: Fate)
    ensures var db' := RemoveReceipt(db, id, fate);
            && db'.log == db.log && db'.now == db.now && db'.receipts - {id} == db.receipts - {id}
            && (id in db'.receipts <==> id in db.receipts && fate == FailBefore)
            && (id in db'.receipts ==> db'.receipts[id] == db.receipts[id])
  {
  }

  /** The flush is through exactly when, in one attempt, the batch was answered and its receipt acknowledged. */
  lemma {:induction false} FlushDoneExactly<W, O>(db: Db<W, O>, c: Client<O>, id: Id, work: W, report: Reporter<W, O>,
                                                  script: seq<Attempt<W, O>>)
    requires !c.done
    ensures Flush(db, c, id, work, report, script).1.done
            <==> exists i :: 0 <= i < |script| && script[i].first == Success && script[i].second == Success
  {
    hide Pass, PersistRuntimeBatch, AcknowledgeReceipt;
    if |script| > 0 {
      var init, last := script[..|script| - 1], script[|script| - 1];
      FlushDoneExactly(db, c, id, work, report, init);
      assert forall i | 0 <= i < |init| :: init[i] == script[i];
      var (db1, c1) := Flush(db, c, id, work, report, init);
      if !c1.done {
        TryFlushDone(db1, c1, id, work, report, last);
      }
    }
  }

  lemma TryFlushDone<W, O>(db: Db<W, O>, c: Client<O>, id: Id, work: W, report: Reporter<W, O>, a: Attempt<W, O>)
    requires !c.done
    ensures TryFlush(db, c, id, work, report, a).1.done <==> a.first == Success && a.second == Success
  {
    hide Pass;
    PersistExact(Pass(db, a.before), id, work, report, a.first);
    var (db1, answer) := PersistRuntimeBatch(Pass(db, a.before), id, work, report, a.first);
    AcknowledgeExact(Pass(db1, a.between), id, a.second);
  }

  lemma PassKeeps<W(!new), O(!new)>(db: Db<W, O>, m: Meantime<W, O>, id: Id, work: W, report: Reporter<W, O>, start: int)
    requires Settled(db, id, work, report, start) && Foreign(m, id)
    ensures Settled(Pass(db, m), id, work, report, start)
    ensures forall o :: Committed(db.log, id, work, o, report) ==> Committed(Pass(db, m).log, id, work, o, report)
  {
    hide Committed, Count;
    CountConcat(db.log, m.others, id);
    forall o | Committed(db.log, id, work, o, report)
      ensures Committed(Pass(db, m).log, id, work, o, report)
    {
      CommittedLonger(db.log, m.others, id, work, o, report);
    }
  }

  /** One committed outcome was counted on top of base. */
  ghost predicate CountedOnce<W(!new), O(!new)>(db: Db<W, O>, metrics: seq<O>, base: seq<O>, id: Id, work: W,
                                                report: Reporter<W, O>)
  {
    |metrics| == |base| + 1 && metrics[..|base|] == base && Committed(db.log, id, work, metrics[|base|], report)
  }

  /** The client has counted nothing yet, or one committed outcome; it stops only after counting. */
  ghost predicate Counted<W(!new), O(!new)>(db: Db<W, O>, c: Client<O>, base: seq<O>, id: Id, work: W, report: Reporter<W, O>)
  {
    if c.applied then CountedOnce(db, c.metrics, base, id, work, report) else c.metrics == base && !c.done
  }

  lemma PersistKeeps<W(!new), O(!new)>(db: Db<W, O>, id: Id, work: W, report: Reporter<W, O>, fate: Fate, start: int)
    requires Settled(db, id, work, report, start)
    ensures var (db1, outcome) := PersistRuntimeBatch(db, id, work, report, fate);
            && Settled(db1, id, work, report, start)
            && (outcome.Some? ==> id in db1.receipts && Committed(db1.log, id, work, outcome.value, report))
            && (forall o :: Committed(db.log, id, work, o, report) ==> Committed(db1.log, id, work, o, report))
  {
    hide Committed, Count;
    CommitNow(db.log, id, db.now, work, report);
    var e := Entry(id, db.now, work, report(db.log, db.now, work));
    forall o | Committed(db.log, id, work, o, report)
      ensures Committed(db.log + [e], id, work, o, report)
    {
      CommittedLonger(db.log, [e], id, work, o, report);
    }
  }

  /** Once a persist call has answered, every prune so far has led to one more commit than before it. */
  ghost predicate Answered<W, O>(db: Db<W, O>, c: Client<O>, id: Id, start: int)
  {
    c.applied ==> (c.done ==> Count(db.log, id) == 1 + c.prunes) && (c.prunes > 0 ==> db.now > start + WEEK)
  }

  lemma TryFlushKeeps<W(!new), O(!new)>(db: Db<W, O>, c: Client<O>, id: Id, work: W, report: Reporter<W, O>,
                                        a: Attempt<W, O>, start: int, base: seq<O>)
    requires Settled(db, id, work, report, start) && Counted(db, c, base, id, work, report) && !c.done
    requires Answered(db, c, id, start) && ForeignAttempt(a, id)
    ensures var (db', c') := TryFlush(db, c, id, work, report, a);
            && Settled(db', id, work, report, start) && Counted(db', c', base, id, work, report)
            && Answered(db', c', id, start)
  {
    hide Committed, Count, Pass, PersistRuntimeBatch;
    var db0 := Pass(db, a.before);
    PassKeeps(db, a.before, id, work, report, start);
    PassCount(db, a.before, id);
    PersistKeeps(db0, id, work, report, a.first, start);
    PersistTime(db0, id, work, report, a.first);
    var (db1, outcome) := PersistRuntimeBatch(db0, id, work, report, a.first);
    if outcome.Some? {
      var counted := Client(true, if c.applied then c.metrics else c.metrics + [outcome.value], false, Pruned(db1, id));
      assert Counted(db1, counted, base, id, work, report);
      PassKeeps(db1, a.between, id, work, report, start);
      PassCount(db1, a.between, id);
      AcknowledgeKeeps(Pass(db1, a.between), id, work, report, a.second, start);
    }
  }

  lemma PassCount<W, O>(db: Db<W, O>, m: Meantime<W, O>, id: Id)
    requires Foreign(m, id)
    ensures Count(Pass(db, m).log, id) == Count(db.log, id) && Pass(db, m).now >= db.now
    ensures db.log <= Pass(db, m).log
    ensures id in Pass(db, m).receipts ==> id in db.receipts
    ensures id !in db.receipts || !m.prune ==> Pruned(Pass(db, m), id) == Pruned(db, id)
  {
    hide Count;
    CountConcat(db.log, m.others, id);
  }

  lemma PersistTime<W, O>(db: Db<W, O>, id: Id, work: W, report: Reporter<W, O>, fate: Fate)
    ensures var db1 := PersistRuntimeBatch(db, id, work, report, fate).0; db1.now == db.now && db1.pruned == db.pruned
  {
  }

  lemma AcknowledgeKeeps<W(!new), O(!new)>(db: Db<W, O>, id: Id, work: W, report: Reporter<W, O>, fate: Fate, start: int)
    requires Settled(db, id, work, report, start)
    ensures var db' := AcknowledgeReceipt(db, id, fate).0;
            Settled(db', id, work, report, start) && db'.log == db.log && db'.now == db.now
  {
    hide Committed, Count;
  }

  /** A receipt identifier nobody has used yet. */
  predicate Unused<W, O>(db: Db<W, O>, id: Id)
  {
    Count(db.log, id) == 0 && Pruned(db, id) == 0 && id !in db.receipts
  }

  ghost predicate ForeignAttempt<W, O>(a: Attempt<W, O>, id: Id)
  {
    Foreign(a.before, id) && Foreign(a.between, id) && Foreign(a.last, id)
  }

  ghost predicate AllForeign<W, O>(script: seq<Attempt<W, O>>, id: Id)
  {
    forall i | 0 <= i < |script| :: ForeignAttempt(script[i], id)
  }

  /** A client that has not done anything yet. */
  function Idle<O>(base: seq<O>): Client<O>
  {
    Client(false, base, false, 0)
  }

  lemma {:induction false} FlushKeeps<W(!new), O(!new)>(db: Db<W, O>, id: Id, work: W, report: Reporter<W, O>,
                                                        script: seq<Attempt<W, O>>, base: seq<O>)
    requires Unused(db, id) && AllForeign(script, id)
    ensures var (db', c) := Flush(db, Idle(base), id, work, report, script);
            && Settled(db', id, work, report, db.now) && Counted(db', c, base, id, work, report)
            && Answered(db', c, id, db.now)
  {
    hide Settled, Counted, Answered, TryFlush;
    if |script| == 0 {
      FreshSettled(db, id, work, report, base);
    } else {
      FlushKeeps(db, id, work, report, script[..|script| - 1], base);
      var (db1, c1) := Flush(db, Idle(base), id, work, report, script[..|script| - 1]);
      assert ForeignAttempt(script[|script| - 1], id);
      if !c1.done {
        TryFlushKeeps(db1, c1, id, work, report, script[|script| - 1], db.now, base);
      }
    }
  }

  lemma FreshSettled<W(!new), O(!new)>(db: Db<W, O>, id: Id, work: W, report: Reporter<W, O>, base: seq<O>)
    requires Unused(db, id)
    ensures Settled(db, id, work, report, db.now) && Counted(db, Idle(base), base, id, work, report)
    ensures Answered(db, Idle(base), id, db.now)
  {
  }

  /** When the retry loop exits, one committed outcome was counted, once, and the batch is in the tables once
      more than its receipt was pruned before the last persist call: exactly once if and only if no persist
      call came after a prune of the receipt. A prune between persist and acknowledgement does no harm. */
  lemma FlushExactly<W(!new), O(!new)>(db: Db<W, O>, id: Id, work: W, report: Reporter<W, O>, script: seq<Attempt<W, O>>, base: seq<O>)
    requires Unused(db, id) && AllForeign(script, id)
    ensures var (db', c) := Flush(db, Idle(base), id, work, report, script);
            && (c.done ==> Count(db'.log, id) == 1 + c.prunes)
            && (c.done ==> CountedOnce(db', c.metrics, base, id, work, report))
            && (c.prunes > 0 ==> db'.now > db.now + WEEK)
  {
    FlushKeeps(db, id, work, report, script, base);
    FlushIdle(db, id, work, report, script, base);
  }

  lemma {:induction false} FlushIdle<W, O>(db: Db<W, O>, id: Id, work: W, report: Reporter<W, O>, script: seq<Attempt<W, O>>, base: seq<O>)
    ensures var c := Flush(db, Idle(base), id, work, report, script).1; !c.applied ==> c.prunes == 0 && !c.done
  {
    hide PersistRuntimeBatch, Pass;
    if |script| > 0 {
      FlushIdle(db, id, work, report, script[..|script| - 1], base);
    }
  }

  /** Nobody prunes during these attempts. */
  ghost predicate Unpruned<W, O>(script: seq<Attempt<W, O>>)
  {
    forall i | 0 <= i < |script| :: !script[i].before.prune && !script[i].between.prune && !script[i].last.prune
  }

  lemma {:induction false} FlushPrunesNothing<W, O>(db: Db<W, O>, c: Client<O>, id: Id, work: W, report: Reporter<W, O>,
                                                    script: seq<Attempt<W, O>>)
    requires Unpruned(script) && Pruned(db, id) == 0 && c.prunes == 0
    ensures Flush(db, c, id, work, report, script).0.pruned == db.pruned && Flush(db, c, id, work, report, script).1.prunes == 0
  {
    hide Kept, Tally;
    if |script| > 0 {
      FlushPrunesNothing(db, c, id, work, report, script[..|script| - 1]);
      var a := script[|script| - 1];
      assert !a.before.prune && !a.between.prune;
    }
  }

  /** The worker that flushes is the only one that prunes, and it does not prune while it flushes: the batch is
      in the tables exactly once and its outcome counted once, however long the retries take. */
  lemma FlushAlone<W(!new), O(!new)>(db: Db<W, O>, id: Id, work: W, report: Reporter<W, O>, script: seq<Attempt<W, O>>, base: seq<O>)
    requires Unused(db, id) && AllForeign(script, id) && Unpruned(script)
    ensures var (db', c) := Flush(db, Idle(base), id, work, report, script);
            c.done ==> Count(db'.log, id) == 1 && CountedOnce(db', c.metrics, base, id, work, report)
  {
    FlushExactly(db, id, work, report, script, base);
    FlushPrunesNothing(db, Idle(base), id, work, report, script);
  }

  /** Even if others prune, the batch is applied exactly once within a week of the first call. */
  lemma FlushOnce<W(!new), O(!new)>(db: Db<W, O>, id: Id, work: W, report: Reporter<W, O>, script: seq<Attempt<W, O>>, base: seq<O>)
    requires Unused(db, id) && AllForeign(script, id)
    requires var (db', c) := Flush(db, Idle(base), id, work, report, script); c.done && db'.now <= db.now + WEEK
    ensures Count(Flush(db, Idle(base), id, work, report, script).0.log, id) == 1
  {
    FlushExactly(db, id, work, report, script, base);
  }

  // ------------------------------------------------------------ the persistence worker

  /** What the worker's loop does next: prune receipts, or flush a batch under a new receipt. What others do
      meanwhile comes with it. */
  datatype Tick<W, O> = Cleanup(m: Meantime<W, O>) | FlushTick(id: Id, work: W, script: seq<Attempt<W, O>>)

  /** The worker: the database, the outcomes it has counted, the batches it is through with, and whether it is
      still retrying one. */
  datatype Worker<W, O> = Worker(db: Db<W, O>, metrics: seq<O>, through: seq<(Id, W)>, busy: bool)

  /** run_stats_persistence awaits each flush inside its select loop, so nothing comes after one that retries. */
  function WorkerTick<W, O>(w: Worker<W, O>, t: Tick<W, O>, report: Reporter<W, O>): Worker<W, O>
  {
    if w.busy then w
    else
      match t
      case Cleanup(m) => w.(db := Pass(w.db, m))
      case FlushTick(id, work, script) =>
        var (db, c) := Flush(w.db, Idle(w.metrics), id, work, report, script);
        Worker(db, c.metrics, if c.done then w.through + [(id, work)] else w.through, !c.done)
  }

  function RunWorker<W, O>(w: Worker<W, O>, ticks: seq<Tick<W, O>>, report: Reporter<W, O>): Worker<W, O>
  {
    if |ticks| == 0 then w else WorkerTick(RunWorker(w, ticks[..|ticks| - 1], report), ticks[|ticks| - 1], report)
  }

  function Batches<W, O>(ticks: seq<Tick<W, O>>): seq<(Id, W)>
  {
    if |ticks| == 0 then []
    else
      var t := ticks[|ticks| - 1];
      Batches(ticks[..|ticks| - 1]) + if t.FlushTick? then [(t.id, t.work)] else []
  }

  /** Everybody else leaves id alone during this tick. */
  ghost predicate ForeignTick<W, O>(t: Tick<W, O>, id: Id)
  {
    if t.Cleanup? then Foreign(t.m, id) else AllForeign(t.script, id)
  }

  /** This tick leaves id alone: others do, and it does not flush under it. */
  ghost predicate Apart<W, O>(t: Tick<W, O>, id: Id)
  {
    ForeignTick(t, id) && (t.FlushTick? ==> t.id != id)
  }

  /** Receipts are new and distinct, others leave them alone, and while a batch is flushed nobody prunes. */
  ghost predicate Orderly<W, O>(db: Db<W, O>, ticks: seq<Tick<W, O>>)
  {
    forall i | 0 <= i < |ticks| && ticks[i].FlushTick? ::
      && Unused(db, ticks[i].id) && ForeignTick(ticks[i], ticks[i].id) && Unpruned(ticks[i].script)
      && forall j | 0 <= j < |ticks| && j != i :: Apart(ticks[j], ticks[i].id)
  }

  /** What others do keeps the account of id: its transactions, and that it is unused. */
  ghost predicate Spared<W, O>(a: Db<W, O>, b: Db<W, O>, id: Id)
  {
    a.log <= b.log && Count(b.log, id) == Count(a.log, id) && (Unused(a, id) ==> Unused(b, id))
  }

  lemma PassSpares<W, O>(db: Db<W, O>, m: Meantime<W, O>, id: Id)
    requires Foreign(m, id)
    ensures Spared(db, Pass(db, m), id)
  {
    hide Count, Pass, Foreign;
    PassCount(db, m, id);
  }

  lemma PersistSpares<W, O>(db: Db<W, O>, other: Id, work: W, report: Reporter<W, O>, fate: Fate, id: Id)
    requires other != id
    ensures Spared(db, PersistRuntimeBatch(db, other, work, report, fate).0, id)
  {
    hide Count;
    CountConcat(db.log, [Entry(other, db.now, work, report(db.log, db.now, work))], id);
  }

  lemma AcknowledgeSpares<W, O>(db: Db<W, O>, other: Id, fate: Fate, id: Id)
    requires other != id
    ensures Spared(db, AcknowledgeReceipt(db, other, fate).0, id)
  {
    hide Count;
  }

  lemma TryFlushSpares<W, O>(db: Db<W, O>, c: Client<O>, other: Id, work: W, report: Reporter<W, O>, a: Attempt<W, O>, id: Id)
    requires other != id && ForeignAttempt(a, id)
    ensures Spared(db, TryFlush(db, c, other, work, report, a).0, id)
  {
    hide Count, Pass, Foreign, PersistRuntimeBatch, AcknowledgeReceipt, Unused;
    var db0 := Pass(db, a.before);
    PassSpares(db, a.before, id);
    PersistSpares(db0, other, work, report, a.first, id);
    var db1 := PersistRuntimeBatch(db0, other, work, report, a.first).0;
    PassSpares(db1, a.between, id);
    AcknowledgeSpares(Pass(db1, a.between), other, a.second, id);
  }

  lemma {:induction false} FlushSpares<W, O>(db: Db<W, O>, c: Client<O>, other: Id, work: W, report: Reporter<W, O>,
                                             script: seq<Attempt<W, O>>, id: Id)
    requires other != id && AllForeign(script, id)
    ensures Spared(db, Flush(db, c, other, work, report, script).0, id)
  {
    hide Count, TryFlush, Unused, ForeignAttempt;
    if |script| > 0 {
      var init := script[..|script| - 1];
      assert forall i | 0 <= i < |init| :: init[i] == script[i];
      FlushSpares(db, c, other, work, report, init, id);
      var (db1, c1) := Flush(db, c, other, work, report, init);
      TryFlushSpares(db1, c1, other, work, report, script[|script| - 1], id);
    }
  }

  lemma TickSpares<W, O>(w: Worker<W, O>, t: Tick<W, O>, report: Reporter<W, O>, id: Id)
    requires Apart(t, id)
    ensures Spared(w.db, WorkerTick(w, t, report).db, id)
  {
    hide Count, Pass, Foreign, Unused, AllForeign, Flush;
    match t
    case Cleanup(m) => PassSpares(w.db, m, id);
    case FlushTick(other, work, script) => FlushSpares(w.db, Idle(w.metrics), other, work, report, script, id);
  }

  lemma {:induction false} RunSpares<W, O>(w: Worker<W, O>, ticks: seq<Tick<W, O>>, report: Reporter<W, O>, id: Id)
    requires forall i | 0 <= i < |ticks| :: Apart(ticks[i], id)
    ensures Spared(w.db, RunWorker(w, ticks, report).db, id)
  {
    hide Count, Unused, WorkerTick, Apart;
    if |ticks| > 0 {
      RunSpares(w, ticks[..|ticks| - 1], report, id);
      TickSpares(RunWorker(w, ticks[..|ticks| - 1], report), ticks[|ticks| - 1], report, id);
    }
  }

  /** Batch k is in the tables once, and the k-th outcome counted is the one it committed with. */
  ghost predicate OnceAt<W(!new), O(!new)>(w: Worker<W, O>, report: Reporter<W, O>, k: nat)
    requires k < |w.through| && k < |w.metrics|
  {
    Count(w.db.log, w.through[k].0) == 1 && Committed(w.db.log, w.through[k].0, w.through[k].1, w.metrics[k], report)
  }

  /** Each batch the worker is through with is in the tables once and was counted once, in order; beyond that
      it has counted at most the outcome of the batch it is retrying. */
  ghost predicate OnceEach<W(!new), O(!new)>(w: Worker<W, O>, report: Reporter<W, O>)
  {
    && |w.through| <= |w.metrics| <= |w.through| + (if w.busy then 1 else 0)
    && forall k: nat | k < |w.through| :: OnceAt(w, report, k)
  }

  lemma SparedOnce<W(!new), O(!new)>(w: Worker<W, O>, w': Worker<W, O>, report: Reporter<W, O>, k: nat)
    requires k < |w.through| && k < |w.metrics| && k < |w'.through| && k < |w'.metrics|
    requires w'.through[k] == w.through[k] && w'.metrics[k] == w.metrics[k]
    requires OnceAt(w, report, k) && Spared(w.db, w'.db, w.through[k].0)
    ensures OnceAt(w', report, k)
  {
    hide Count, Committed, Unused;
    var more := w'.db.log[|w.db.log|..];
    assert w'.db.log == w.db.log + more;
    CommittedLonger(w.db.log, more, w.through[k].0, w.through[k].1, w.metrics[k], report);
  }

  /** One more tick: the batches before it stay as they are, a batch it finishes joins them. */
  lemma TickOnce<W(!new), O(!new)>(w: Worker<W, O>, t: Tick<W, O>, report: Reporter<W, O>)
    requires OnceEach(w, report) && !w.busy
    requires forall k: nat | k < |w.through| :: Apart(t, w.through[k].0)
    requires t.FlushTick? ==> Unused(w.db, t.id) && ForeignTick(t, t.id) && Unpruned(t.script)
    ensures OnceEach(WorkerTick(w, t, report), report)
  {
    hide Count, Committed, Unused, Unpruned, Spared, OnceAt, Pass, AllForeign, Foreign;
    var w' := WorkerTick(w, t, report);
    TickShape(w, t, report);
    hide WorkerTick;
    forall k: nat | k < |w.through|
      ensures OnceAt(w', report, k)
    {
      TickSpares(w, t, report, w.through[k].0);
      SparedOnce(w, w', report, k);
    }
  }

  lemma TickShape<W(!new), O(!new)>(w: Worker<W, O>, t: Tick<W, O>, report: Reporter<W, O>)
    requires !w.busy && |w.metrics| == |w.through|
    requires t.FlushTick? ==> Unused(w.db, t.id) && ForeignTick(t, t.id) && Unpruned(t.script)
    ensures var w' := WorkerTick(w, t, report);
            && |w'.through| <= |w'.metrics| <= |w'.through| + (if w'.busy then 1 else 0)
            && w.through <= w'.through && w.metrics <= w'.metrics && |w'.through| <= |w.through| + 1
            && (|w'.through| == |w.through| + 1 ==> OnceAt(w', report, |w.through|))
  {
    hide Count, Committed, Unused, Unpruned, AllForeign, Flush;
    if t.FlushTick? {
      FlushAlone(w.db, t.id, t.work, report, t.script, w.metrics);
      FlushCounts(w.db, t.id, t.work, report, t.script, w.metrics);
    }
  }

  /** A flush that is not through yet has counted at most one outcome. */
  lemma FlushCounts<W(!new), O(!new)>(db: Db<W, O>, id: Id, work: W, report: Reporter<W, O>, script: seq<Attempt<W, O>>, base: seq<O>)
    requires Unused(db, id) && AllForeign(script, id)
    ensures var c := Flush(db, Idle(base), id, work, report, script).1;
            base <= c.metrics && |c.metrics| <= |base| + 1
  {
    hide Count, Committed, Unused, AllForeign, Flush;
    FlushKeeps(db, id, work, report, script, base);
  }

  /** Over every run of the persistence worker: each batch it is through with is in the tables exactly once and
      was counted exactly once, with the outcome of that transaction, however long its retries took and
      whatever the worker pruned before and after. */
  lemma {:induction false} WorkerOnce<W(!new), O(!new)>(db: Db<W, O>, ticks: seq<Tick<W, O>>, report: Reporter<W, O>)
    requires Orderly(db, ticks)
    ensures var w := RunWorker(Worker(db, [], [], false), ticks, report);
            OnceEach(w, report) && w.through <= Batches(ticks) && (!w.busy ==> w.through == Batches(ticks))
  {
    hide Unused, Unpruned, ForeignTick, WorkerTick, OnceEach;
    if |ticks| > 0 {
      var init, t := ticks[..|ticks| - 1], ticks[|ticks| - 1];
      OrderlyInit(db, ticks);
      WorkerOnce(db, init, report);
      var w := RunWorker(Worker(db, [], [], false), init, report);
      TickThrough(w, t, report);
      if !w.busy {
        LastApart(db, ticks, report);
        TickOnce(w, t, report);
      }
    } else {
      assert OnceEach(Worker(db, [], [], false), report) by { NothingOnce(db, report); }
    }
  }

  lemma NothingOnce<W(!new), O(!new)>(db: Db<W, O>, report: Reporter<W, O>)
    ensures OnceEach(Worker(db, [], [], false), report)
  {
  }

  lemma OrderlyInit<W, O>(db: Db<W, O>, ticks: seq<Tick<W, O>>)
    requires Orderly(db, ticks) && |ticks| > 0
    ensures Orderly(db, ticks[..|ticks| - 1])
  {
    hide Unused, Unpruned, ForeignTick, Apart;
    var init := ticks[..|ticks| - 1];
    assert forall i | 0 <= i < |init| :: init[i] == ticks[i];
  }

  lemma TickThrough<W, O>(w: Worker<W, O>, t: Tick<W, O>, report: Reporter<W, O>)
    ensures var w' := WorkerTick(w, t, report);
            && (w.busy ==> w' == w)
            && (!w.busy ==> w'.through <= w.through + Batches([t]) && (!w'.busy ==> w'.through == w.through + Batches([t])))
  {
    hide Flush, Pass;
    assert [t][..0] == [];
  }

  /** The last tick leaves the batches before it alone, and its own receipt is still unused when it comes. */
  lemma LastApart<W, O>(db: Db<W, O>, ticks: seq<Tick<W, O>>, report: Reporter<W, O>)
    requires Orderly(db, ticks) && |ticks| > 0
    ensures var init, t := ticks[..|ticks| - 1], ticks[|ticks| - 1];
            && (forall b | b in Batches(init) :: Apart(t, b.0))
            && (t.FlushTick? ==> Unused(RunWorker(Worker(db, [], [], false), init, report).db, t.id))
  {
    hide Unused, Unpruned, ForeignTick, Apart, RunWorker;
    var init, t := ticks[..|ticks| - 1], ticks[|ticks| - 1];
    forall b | b in Batches(init)
      ensures Apart(t, b.0)
    {
      BatchTick(init, b);
    }
    if t.FlushTick? {
      RunSpares(Worker(db, [], [], false), init, report, t.id);
    }
  }

  lemma {:induction false} BatchTick<W, O>(ticks: seq<Tick<W, O>>, b: (Id, W))
    requires b in Batches(ticks)
    ensures exists i :: 0 <= i < |ticks| && ticks[i].FlushTick? && ticks[i].id == b.0
  {
    var init, t := ticks[..|ticks| - 1], ticks[|ticks| - 1];
    if b in Batches(init) {
      BatchTick(init, b);
      var i :| 0 <= i < |init| && init[i].FlushTick? && init[i].id == b.0;
      assert ticks[i] == init[i];
    } else {
      assert ticks[|ticks| - 1] == t;
    }
  }

  // ------------------------------------------------------------ discoveries retried

  ghost predicate Through<W(!new), O(!new)>(db: Db<W, O>, c: Client<O>, base: seq<O>, id: Id, work: W, report: Reporter<W, O>, start: int)
  {
    && Count(db.log, id) == 1 + c.prunes
    && CountedOnce(db, c.metrics, base, id, work, report)
    && (c.prunes > 0 ==> db.now > start + WEEK)
  }

  lemma CommitDiscoveryKeeps<W(!new), O(!new)>(db: Db<W, O>, id: Id, work: W, report: Reporter<W, O>, fate: Fate, start: int, base: seq<O>)
    requires Settled(db, id, work, report, start)
    ensures var (db1, outcome) := CommitDiscovery(db, id, work, report, fate);
            && Settled(db1, id, work, report, start) && db1.now == db.now
            && (outcome.Some? ==> Through(db1, Client(true, base + [outcome.value], true, Pruned(db1, id)), base, id, work, report, start))
  {
    hide Committed, Count;
    CommitNow(db.log, id, db.now, work, report);
  }

  /** What is through stays through, whatever happens afterwards. */
  lemma ThroughStays<W(!new), O(!new)>(db: Db<W, O>, m: Meantime<W, O>, c: Client<O>, base: seq<O>, id: Id, work: W,
                                       report: Reporter<W, O>, start: int, fate: Fate)
    requires Through(db, c, base, id, work, report, start) && Foreign(m, id) && |c.metrics| > |base|
    ensures Through(RemoveReceipt(Pass(db, m), id, fate), c, base, id, work, report, start)
  {
    hide Committed, Count, Foreign;
    PassCount(db, m, id);
    CommittedLonger(db.log, m.others, id, work, c.metrics[|base|], report);
  }

  lemma TryDiscoverKeeps<W(!new), O(!new)>(db: Db<W, O>, c: Client<O>, id: Id, work: W, report: Reporter<W, O>,
                                           a: Attempt<W, O>, start: int, base: seq<O>)
    requires Settled(db, id, work, report, start) && c.metrics == base && !c.done && ForeignAttempt(a, id)
    ensures var (db', c') := TryDiscover(db, c, id, work, report, a);
            if c'.done then Through(db', c', base, id, work, report, start)
            else Settled(db', id, work, report, start) && c'.metrics == base
  {
    hide Count, Committed, Foreign, Pass, CommitDiscovery, RemoveReceipt;
    var db0 := Pass(db, a.before);
    PassKeeps(db, a.before, id, work, report, start);
    if a.first == Success && id !in db0.receipts {
      PassKeeps(db0, a.between, id, work, report, start);
      CommitDiscoveryKeeps(Pass(db0, a.between), id, work, report, a.second, start, base);
      var (db1, outcome) := CommitDiscovery(Pass(db0, a.between), id, work, report, a.second);
      if outcome.Some? {
        ThroughStays(db1, a.last, Client(true, base + [outcome.value], true, Pruned(db1, id)), base, id, work, report, start, a.third);
      }
    }
  }

  /** When the retry loop exits, the discovery is in the tables once more than its receipt was pruned before
      the last call that answered, and its committed outcome was counted once. */
  lemma {:induction false} DiscoverExactly<W(!new), O(!new)>(db: Db<W, O>, id: Id, work: W, report: Reporter<W, O>,
                                                             script: seq<Attempt<W, O>>, base: seq<O>)
    requires Unused(db, id) && AllForeign(script, id)
    ensures var (db', c) := Discover(db, Idle(base), id, work, report, script);
            if c.done then Through(db', c, base, id, work, report, db.now)
            else Settled(db', id, work, report, db.now) && c.metrics == base
  {
    hide Settled, Through, TryDiscover;
    if |script| == 0 {
      FreshSettled(db, id, work, report, base);
    } else {
      DiscoverExactly(db, id, work, report, script[..|script| - 1], base);
      var (db1, c1) := Discover(db, Idle(base), id, work, report, script[..|script| - 1]);
      assert ForeignAttempt(script[|script| - 1], id);
      if !c1.done {
        TryDiscoverKeeps(db1, c1, id, work, report, script[|script| - 1], db.now, base);
      }
    }
  }

  /** Within a week of the first call, exactly once. */
  lemma DiscoverOnce<W(!new), O(!new)>(db: Db<W, O>, id: Id, work: W, report: Reporter<W, O>, script: seq<Attempt<W, O>>, base: seq<O>)
    requires Unused(db, id) && AllForeign(script, id)
    requires var (db', c) := Discover(db, Idle(base), id, work, report, script); c.done && db'.now <= db.now + WEEK
    ensures Count(Discover(db, Idle(base), id, work, report, script).0.log, id) == 1
  {
    DiscoverExactly(db, id, work, report, script, base);
  }

  // ------------------------------------------------------------ when a discovery is committed again

  /** A call as its clock sees it: when, whether receipts are pruned before it, and what becomes of it. */
  datatype Call = Call(at: int, prune: bool, fate: Fate)

  /** The two calls of an attempt that decide: looking for the receipt, and committing. */
  datatype Timing = Timing(look: Call, commit: Call)

  function TimingOf<W, O>(a: Attempt<W, O>): Timing
  {
    Timing(Call(a.before.at, a.before.prune, a.first), Call(a.between.at, a.between.prune, a.second))
  }

  function Timings<W, O>(script: seq<Attempt<W, O>>): seq<Timing>
  {
    seq(|script|, i requires 0 <= i < |script| => TimingOf(script[i]))
  }

  /** What can be told from the times alone: when the receipt that is there was stored, how many were pruned,
      and whether the client has its answer. */
  datatype Forecast = Forecast(now: int, stored: Option<int>, lost: nat, done: bool)

  function Waited(f: Forecast, call: Call): Forecast
  {
    var now := Later(f.now, call.at);
    if call.prune && f.stored.Some? && f.stored.value < now - WEEK then Forecast(now, None, f.lost + 1, f.done)
    else f.(now := now)
  }

  function Tried(f: Forecast, t: Timing): Forecast
  {
    var looked := Waited(f, t.look);
    if t.look.fate != Success then looked
    else if looked.stored.Some? then looked.(done := true)
    else
      var ready := Waited(looked, t.commit);
      if t.commit.fate == FailBefore then ready else ready.(stored := Some(ready.now), done := t.commit.fate == Success)
  }

  function Foreseen(now: int, timings: seq<Timing>): Forecast
  {
    if |timings| == 0 then Forecast(now, None, 0, false)
    else
      var f := Foreseen(now, timings[..|timings| - 1]);
      if f.done then f else Tried(f, timings[|timings| - 1])
  }

  /** The database as far as the forecast goes. */
  ghost predicate AsForeseen<W, O>(db: Db<W, O>, id: Id, f: Forecast)
  {
    && db.now == f.now && Pruned(db, id) == f.lost
    && (if id in db.receipts then f.stored.Some? && db.receipts[id].acknowledgedAt == f.stored else f.stored.None?)
  }

  lemma PassForeseen<W, O>(db: Db<W, O>, m: Meantime<W, O>, id: Id, f: Forecast, fate: Fate)
    requires AsForeseen(db, id, f) && Foreign(m, id)
    ensures AsForeseen(Pass(db, m), id, Waited(f, Call(m.at, m.prune, fate)))
  {
  }

  lemma TryForeseen<W, O>(db: Db<W, O>, c: Client<O>, id: Id, work: W, report: Reporter<W, O>, a: Attempt<W, O>, f: Forecast)
    requires AsForeseen(db, id, f) && ForeignAttempt(a, id) && !c.done && !f.done
    ensures var ((db', c'), f') := (TryDiscover(db, c, id, work, report, a), Tried(f, TimingOf(a)));
            && c'.done == f'.done && (c'.done ==> c'.prunes == f'.lost)
            && (!c'.done ==> AsForeseen(db', id, f'))
  {
    hide Foreign, Pass, Waited;
    var db0 := Pass(db, a.before);
    PassForeseen(db, a.before, id, f, a.first);
    var looked := Waited(f, Call(a.before.at, a.before.prune, a.first));
    WaitedKeeps(f, Call(a.before.at, a.before.prune, a.first));
    PassForeseen(db0, a.between, id, looked, a.second);
    WaitedKeeps(looked, Call(a.between.at, a.between.prune, a.second));
  }

  lemma WaitedKeeps(f: Forecast, call: Call)
    ensures Waited(f, call).done == f.done && (f.stored.None? ==> Waited(f, call).stored.None?)
  {
  }

  /** Times, fates and prunes alone tell whether the client gets its answer and how often the receipt was pruned
      before: that is how often too many the discovery is in the tables. */
  lemma {:induction false} DiscoverForeseen<W(!new), O(!new)>(db: Db<W, O>, id: Id, work: W, report: Reporter<W, O>,
                                                              script: seq<Attempt<W, O>>, base: seq<O>)
    requires Unused(db, id) && AllForeign(script, id)
    ensures var ((db', c), f) := (Discover(db, Idle(base), id, work, report, script), Foreseen(db.now, Timings(script)));
            && c.done == f.done
            && (c.done ==> c.prunes == f.lost && Count(db'.log, id) == 1 + f.lost)
            && (!c.done ==> AsForeseen(db', id, f))
  {
    DiscoverExactly(db, id, work, report, script, base);
    hide Count, TryDiscover, AsForeseen, Tried, Through;
    if |script| == 0 {
      FreshForeseen(db, id);
    } else {
      var init, last := script[..|script| - 1], script[|script| - 1];
      assert Timings(script)[..|script| - 1] == Timings(init);
      DiscoverForeseen(db, id, work, report, init, base);
      var (db1, c1) := Discover(db, Idle(base), id, work, report, init);
      assert ForeignAttempt(last, id);
      if !c1.done {
        TryForeseen(db1, c1, id, work, report, last, Foreseen(db.now, Timings(init)));
      }
    }
  }

  lemma FreshForeseen<W, O>(db: Db<W, O>, id: Id)
    requires Unused(db, id)
    ensures AsForeseen(db, id, Forecast(db.now, None, 0, false))
  {
  }

  // ------------------------------------------------------------ where in the log

  lemma {:induction false} CountNone<W, O>(log: seq<Entry<W, O>>, id: Id)
    ensures Count(log, id) == 0 <==> forall i | 0 <= i < |log| :: log[i].receipt != id
  {
    if |log| > 0 {
      var init := log[..|log| - 1];
      CountNone(init, id);
      assert forall i | 0 <= i < |init| :: init[i] == log[i];
      assert Count(log, id) == Count(init, id) + if log[|log| - 1].receipt == id then 1 else 0;
      if Count(log, id) != 0 && Count(init, id) != 0 {
        var i :| 0 <= i < |init| && init[i].receipt == id;
        assert log[i].receipt == id;
      }
    }
  }

  /** A transaction counted once is the only one under its receipt. */
  lemma {:induction false} CountUnique<W, O>(log: seq<Entry<W, O>>, id: Id, k: nat)
    requires k < |log| && Count(log, id) == 1 && log[k].receipt == id
    ensures forall i | 0 <= i < |log| && i != k :: log[i].receipt != id
  {
    var init := log[..|log| - 1];
    assert forall i | 0 <= i < |init| :: init[i] == log[i];
    if k == |log| - 1 {
      CountNone(init, id);
    } else {
      CountNone(init, id);
      assert init[k].receipt == id;
      CountUnique(init, id, k);
    }
  }

  lemma {:induction false} CountSingle<W, O>(log: seq<Entry<W, O>>, id: Id, k: nat)
    requires k < |log| && forall i | 0 <= i < |log| :: log[i].receipt == id <==> i == k
    ensures Count(log, id) == 1
  {
    var init := log[..|log| - 1];
    assert forall i | 0 <= i < |init| :: init[i] == log[i];
    if k == |log| - 1 {
      CountNone(init, id);
    } else {
      CountSingle(init, id, k);
    }
  }

  lemma PassExtends<W, O>(db: Db<W, O>, m: Meantime<W, O>)
    ensures db.log <= Pass(db, m).log
  {
    hide Kept, Tally;
  }

  lemma TryFlushExtends<W, O>(db: Db<W, O>, c: Client<O>, id: Id, work: W, report: Reporter<W, O>, a: Attempt<W, O>)
    ensures db.log <= TryFlush(db, c, id, work, report, a).0.log
  {
    hide Pass;
    PassExtends(db, a.before);
    var (db1, _) := PersistRuntimeBatch(Pass(db, a.before), id, work, report, a.first);
    PassExtends(db1, a.between);
  }

  lemma TryDiscoverExtends<W, O>(db: Db<W, O>, c: Client<O>, id: Id, work: W, report: Reporter<W, O>, a: Attempt<W, O>)
    ensures db.log <= TryDiscover(db, c, id, work, report, a).0.log
  {
    hide Pass;
    var db0 := Pass(db, a.before);
    PassExtends(db, a.before);
    PassExtends(db0, a.between);
    var (db1, _) := CommitDiscovery(Pass(db0, a.between), id, work, report, a.second);
    PassExtends(db1, a.last);
  }

  lemma {:induction false} FlushExtends<W, O>(db: Db<W, O>, c: Client<O>, id: Id, work: W, report: Reporter<W, O>, script: seq<Attempt<W, O>>)
    ensures db.log <= Flush(db, c, id, work, report, script).0.log
  {
    hide TryFlush;
    if |script| > 0 {
      FlushExtends(db, c, id, work, report, script[..|script| - 1]);
      var (db1, c1) := Flush(db, c, id, work, report, script[..|script| - 1]);
      TryFlushExtends(db1, c1, id, work, report, script[|script| - 1]);
    }
  }

  lemma {:induction false} WorkerExtends<W, O>(w: Worker<W, O>, ticks: seq<Tick<W, O>>, report: Reporter<W, O>)
    ensures w.db.log <= RunWorker(w, ticks, report).db.log
  {
    hide Kept, Tally, Flush;
    if |ticks| > 0 {
      var init, t := ticks[..|ticks| - 1], ticks[|ticks| - 1];
      WorkerExtends(w, init, report);
      var before := RunWorker(w, init, report);
      if t.FlushTick? {
        FlushExtends(before.db, Idle(before.metrics), t.id, t.work, report, t.script);
      }
    }
  }

  lemma {:induction false} DiscoverExtends<W, O>(db: Db<W, O>, c: Client<O>, id: Id, work: W, report: Reporter<W, O>, script: seq<Attempt<W, O>>)
    ensures db.log <= Discover(db, c, id, work, report, script).0.log
  {
    hide TryDiscover;
    if |script| > 0 {
      DiscoverExtends(db, c, id, work, report, script[..|script| - 1]);
      var (db1, c1) := Discover(db, c, id, work, report, script[..|script| - 1]);
      TryDiscoverExtends(db1, c1, id, work, report, script[|script| - 1]);
    }
  }

  // ------------------------------------------------------------ outliving the receipt

  function Calm<W, O>(at: int, prune: bool): Meantime<W, O>
  {
    Meantime(at, [], {}, map[], prune)
  }

  const START: Db<int, int> := Db(0, [], map[], map[])

  function Ordinal(log: seq<Entry<int, int>>, at: int, work: int): int
  {
    |log|
  }

  /** The tables after one commit of 42 under receipt 7 at time 0, acknowledged. */
  const ONCE: Db<int, int> := Db(0, [Entry(7, 0, 42, 0)], map[7 := Receipt(Some(0), 0)], map[])

  const TWICE: seq<Entry<int, int>> := [Entry(7, 0, 42, 0), Entry(7, WEEK + 1, 42, 1)]

  /** An attempt before which it gets late, and perhaps the receipts are pruned. */
  function Turn(at: int, prune: bool, second: Fate): Attempt<int, int>
  {
    Attempt(Calm(at, prune), Success, Calm(at, false), second, Calm(at, false), Success)
  }

  /** More than a week after ONCE a prune takes the receipt. */
  lemma Forgotten()
    ensures var db := Pass(ONCE, Calm(WEEK + 1, true));
            db.now == WEEK + 1 && db.log == ONCE.log && db.receipts == map[]
  {
  }

  lemma Again(db: Db<int, int>)
    requires db.now == WEEK + 1 && db.log == ONCE.log && db.receipts == map[]
    ensures Pass(db, Calm(WEEK + 1, false)) == db
    ensures db.log + [Entry(7, db.now, 42, Ordinal(db.log, db.now, 42))] == TWICE && Count(TWICE, 7) == 2
  {
    assert TWICE[..1] == [TWICE[0]] && TWICE[..1][..0] == [];
    assert Count(TWICE[..1], 7) == 1;
  }

  /** A discovery whose reply is lost and whose next retry comes after a week, with the statistics worker's
      hourly prune in between, is persisted twice. */
  lemma DiscoveryTwice()
    ensures var script := [Turn(0, false, ReplyLost), Turn(WEEK + 1, true, Success)];
            var (db, c) := Discover(START, Idle([]), 7, 42, Ordinal, script);
            c.done && Count(db.log, 7) == 2 && c.metrics == [1]
  {
    hide Pass, Count;
    DiscoverySecond();
    DiscoveryFirst();
    var script := [Turn(0, false, ReplyLost), Turn(WEEK + 1, true, Success)];
    assert script[..1] == [script[0]] && script[..1][..0] == [];
    var c: Client<int> := Idle([]);
    assert Discover(START, c, 7, 42, Ordinal, []) == (START, c);
    hide TryDiscover;
    assert Discover(START, c, 7, 42, Ordinal, script[..1]) == (ONCE, c);
  }

  lemma DiscoveryFirst()
    ensures TryDiscover(START, Idle([]), 7, 42, Ordinal, Turn(0, false, ReplyLost)) == (ONCE, Idle([]))
  {
    assert Pass(START, Calm(0, false)) == START;
    assert START.receipts[7 := Receipt(Some(0), 0)] == ONCE.receipts && START.log + ONCE.log == ONCE.log;
    hide Pass;
  }

  lemma DiscoverySecond()
    ensures var (db, c) := TryDiscover(ONCE, Idle([]), 7, 42, Ordinal, Turn(WEEK + 1, true, Success));
            c.done && Count(db.log, 7) == 2 && c.metrics == [1]
  {
    Forgotten();
    var db0 := Pass(ONCE, Calm(WEEK + 1, true));
    Again(db0);
    var (db1, outcome) := CommitDiscovery(db0, 7, 42, Ordinal, Success);
    assert db1.log == TWICE && outcome == Some(1);
    assert Pass(db1, Calm(WEEK + 1, false)).log == TWICE;
    hide Pass, Count;
  }

  /** What the rule of one persistence worker is for: if a second one pruned the receipt of an acknowledged
      batch whose acknowledgement got lost, more than a week before the retry, the batch would be committed
      again. */
  lemma SecondWorkerTwice()
    ensures var script := [Turn(0, false, ReplyLost), Turn(WEEK + 1, true, Success)];
            var (db, c) := Flush(START, Idle([]), 7, 42, Ordinal, script);
            !Unpruned(script) && c.done && Count(db.log, 7) == 2 && c.metrics == [0]
  {
    hide Pass, Count;
    SecondWorkerAgain();
    SecondWorkerFirst();
    var script := [Turn(0, false, ReplyLost), Turn(WEEK + 1, true, Success)];
    assert script[1].before.prune;
    assert script[..1] == [script[0]] && script[..1][..0] == [];
    assert Flush(START, Idle([]), 7, 42, Ordinal, []) == (START, Idle([]));
    hide TryFlush;
    assert Flush(START, Idle([]), 7, 42, Ordinal, script[..1]) == (ONCE, Client(true, [0], false, 0));
  }

  lemma SecondWorkerFirst()
    ensures TryFlush(START, Idle([]), 7, 42, Ordinal, Turn(0, false, ReplyLost)) == (ONCE, Client(true, [0], false, 0))
  {
    var stored: Db<int, int> := Db(0, [Entry(7, 0, 42, 0)], map[7 := Receipt(None, 0)], map[]);
    assert Pass(START, Calm(0, false)) == START;
    assert Pass(stored, Calm(0, false)) == stored;
    assert START.receipts[7 := Receipt(None, 0)] == stored.receipts && START.log + stored.log == stored.log;
    assert stored.receipts[7 := Receipt(Some(0), 0)] == ONCE.receipts;
    assert PersistRuntimeBatch(START, 7, 42, Ordinal, Success) == (stored, Some(0));
    var (after, acknowledged) := AcknowledgeReceipt(stored, 7, ReplyLost);
    assert after.receipts == ONCE.receipts && !acknowledged;
    var counted: seq<int> := [];
    assert counted + [0] == [0] && Pruned(stored, 7) == 0;
    hide Pass, AcknowledgeReceipt, PersistRuntimeBatch;
  }

  lemma SecondWorkerAgain()
    ensures var (db, c) := TryFlush(ONCE, Client(true, [0], false, 0), 7, 42, Ordinal, Turn(WEEK + 1, true, Success));
            c.done && Count(db.log, 7) == 2 && c.metrics == [0]
  {
    Forgotten();
    var db0 := Pass(ONCE, Calm(WEEK + 1, true));
    Again(db0);
    var (db1, outcome) := PersistRuntimeBatch(db0, 7, 42, Ordinal, Success);
    assert db1.log == TWICE && outcome == Some(1);
    assert Pass(db1, Calm(WEEK + 1, false)).log == TWICE;
    hide Pass, Count;
  }

  // ------------------------------------------------------------ the client as written

  datatype Batch<E, S> = Batch(events: seq<E>, snapshot: Option<S>)

  /** The statistics writer: its buffered events and snapshot, the counters, and the database it talks to. */
  class StatsWriter<E(==), S, O> {
    var db: Db<Batch<E, S>, O>
    var events: seq<E>
    var snapshot: Option<S>
    var metrics: seq<O>
    ghost var prunes: nat
    const report: Reporter<Batch<E, S>, O>

    constructor (db: Db<Batch<E, S>, O>, events: seq<E>, snapshot: Option<S>, report: Reporter<Batch<E, S>, O>)
      ensures this.db == db && this.events == events && this.snapshot == snapshot && metrics == [] && this.report == report
    {
      this.db, this.events, this.snapshot, this.report := db, events, snapshot, report;
      metrics, prunes := [], 0;
    }

    /** try_flush_stats_batch, after what the others did meanwhile. */
    method TryFlushStatsBatch(receipt: Id, applied0: bool, a: Attempt<Batch<E, S>, O>) returns (ok: bool, applied: bool)
      modifies this
      ensures old(events) == [] ==> ok && applied == applied0 && unchanged(this)
      ensures old(events) != [] ==>
                (db, Client(applied, metrics, ok, prunes))
                == TryFlush(old(db), Client(applied0, old(metrics), false, old(prunes)), receipt, Batch(old(events), old(snapshot)), report, a)
      ensures if ok then events == [] && (old(events) != [] ==> snapshot == None)
              else events == old(events) && snapshot == old(snapshot)
    {
      applied := applied0;
      if events == [] {
        return true, applied;
      }
      db := Pass(db, a.before);
      var (db1, outcome) := PersistRuntimeBatch(db, receipt, Batch(events, snapshot), report, a.first);
      db := db1;
      if outcome.None? {
        return false, applied;
      }
      prunes := Pruned(db, receipt);
      if !applied {
        metrics := metrics + [outcome.value];
        applied := true;
      }
      db := Pass(db, a.between);
      var (db2, acknowledged) := AcknowledgeReceipt(db, receipt, a.second);
      db := db2;
      if !acknowledged {
        return false, applied;
      }
      events := [];
      snapshot := None;
      return true, applied;
    }

    /** flush_stats_batch, as long as the script lasts. */
    method FlushStatsBatch(receipt: Id, script: seq<Attempt<Batch<E, S>, O>>) returns (ok: bool)
      modifies this
      ensures old(events) == [] && |script| > 0 ==> ok && unchanged(`db) && unchanged(`metrics)
      ensures old(events) != [] ==> exists applied ::
                (db, Client(applied, metrics, ok, prunes))
                == Flush(old(db), Idle(old(metrics)), receipt, Batch(old(events), old(snapshot)), report, script)
      ensures if ok then events == [] && (old(events) != [] ==> snapshot == None)
              else events == old(events) && snapshot == old(snapshot)
    {
      var applied := false;
      ok := false;
      prunes := 0;
      var i := 0;
      while i < |script| && !ok
        invariant 0 <= i <= |script|
        invariant old(events) == [] ==> ok == (i > 0) && unchanged(`db) && unchanged(`metrics)
        invariant old(events) != [] ==>
                    (db, Client(applied, metrics, ok, prunes))
                    == Flush(old(db), Idle(old(metrics)), receipt, Batch(old(events), old(snapshot)), report, script[..i])
        invariant if ok then events == [] && (old(events) != [] ==> snapshot == None)
                  else events == old(events) && snapshot == old(snapshot)
      {
        assert script[..i + 1][..i] == script[..i];
        ok, applied := TryFlushStatsBatch(receipt, applied, script[i]);
        i := i + 1;
      }
      if old(events) != [] {
        DoneStays(old(db), Idle(old(metrics)), receipt, Batch(old(events), old(snapshot)), report, script, i);
        assert script[..|script|] == script;
      }
    }
  }

  lemma {:induction false} DoneStays<W, O>(db: Db<W, O>, c: Client<O>, id: Id, work: W, report: Reporter<W, O>,
                                           script: seq<Attempt<W, O>>, i: nat)
    requires i <= |script| && (i < |script| ==> Flush(db, c, id, work, report, script[..i]).1.done)
    ensures Flush(db, c, id, work, report, script) == Flush(db, c, id, work, report, script[..i])
    decreases |script|
  {
    if i < |script| {
      var init := script[..|script| - 1];
      assert init[..i] == script[..i];
      if i == |init| {
        assert init[..i] == init;
      } else {
        DoneStays(db, c, id, work, report, init, i);
      }
    } else {
      assert script[..i] == script;
    }
  }
}
