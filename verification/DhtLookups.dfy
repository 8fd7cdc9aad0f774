/** Real-lookup accounting: the tracker agrees with the pending table in every state between handlers. */
module DhtLookups {
  import opened NodeIds
  import opened Net
  import opened Seqs
  import opened Sums
  import opened DhtState

  ghost function ForLookup(id: LookupId): Pending -> int
  {
    (p: Pending) => if p.rpc.lookupId == Some(id) then 1 else 0
  }

  /** The number of pending RPCs that carry a lookup id. */
  ghost function Outstanding(pending: map<Transaction, Pending>, id: LookupId): int
  {
    Sum(pending, ForLookup(id))
  }

  function Bit(b: bool): nat
  {
    if b then 1 else 0
  }

  /** The id under which the n-th lookup runs. */
  function IdOf(n: nat): LookupId
  {
    n % LOOKUP_IDS
  }

  /** The n-th lookup is active. */
  predicate Live(t: Tracker, n: nat)
  {
    IdOf(n) in t.active && IdOf(n) in t.serials && t.serials[IdOf(n)] == n
  }

  /** The lookups that are active. */
  function LiveOnes(t: Tracker): set<nat>
  {
    set id | id in t.active :: SerialOf(t, id)
  }

  /** Counters, history and active lookups fit together. A lookup that is being opened is active but not yet
      counted as initiated. */
  ghost predicate TrackerOk(t: Tracker, opening: Option<LookupId>)
  {
    CountsOk(t) && NumbersOk(t) && HistoryOk(t, opening)
  }

  ghost predicate CountsOk(t: Tracker)
  {
    t.initiatedCount == |t.initiated| && t.succeededCount == |t.succeeded| && t.failedCount == |t.failed|
  }

  ghost predicate HistoryOk(t: Tracker, opening: Option<LookupId>)
  {
    && t.succeeded !! t.failed
    && (forall id | id in t.active :: SerialOf(t, id) !in t.succeeded && SerialOf(t, id) !in t.failed)
    && (forall n | n in t.initiated :: n in t.succeeded || n in t.failed || (Live(t, n) && opening != Some(IdOf(n))))
    && (forall n | n in t.succeeded || n in t.failed :: n in t.initiated)
    && (forall id | id in t.active && opening != Some(id) :: SerialOf(t, id) in t.initiated)
    && (opening.Some? ==> opening.value in t.active && SerialOf(t, opening.value) !in t.initiated)
    && t.carried <= t.initiated && t.succeeded <= t.carried && t.failed !! t.carried
    && (forall id | id in t.active :: t.active[id].peersFound <==> SerialOf(t, id) in t.carried)
  }

  /** Lookups are numbered in the order they begin, and each active one runs under the id of its number. */
  ghost predicate NumbersOk(t: Tracker)
  {
    && t.nextId == IdOf(t.begun)
    && (forall id | id in t.active :: id in t.serials && IdOf(t.serials[id]) == id && t.serials[id] < t.begun)
    && (forall n | n in t.initiated :: n < t.begun)
  }

  /** Only GetPeers RPCs of real lookups carry a lookup id, and it is an active one. */
  ghost predicate RpcOk(rpc: Rpc, t: Tracker)
  {
    match rpc.lookupId
    case None => !rpc.root.Lookup?
    case Some(id) =>
      && rpc.kind == GetPeers && rpc.isRealLookup && rpc.infoHash.Some?
      && id in t.active && rpc.root == Lookup(SerialOf(t, id))
  }

  ghost predicate AllRpcOk(rpcs: seq<Rpc>, t: Tracker)
  {
    forall i | 0 <= i < |rpcs| :: RpcOk(rpcs[i], t)
  }

  /** Each active lookup's outstanding count is the number of pending RPCs with its id, plus one for the RPC a
      handler has in hand, and it is positive unless the lookup is being opened. */
  ghost predicate Agrees(pending: map<Transaction, Pending>, t: Tracker, hand: Option<LookupId>, opening: Option<LookupId>)
  {
    && (forall tx | tx in pending :: RpcOk(pending[tx].rpc, t))
    && (forall id | id in t.active ::
          && t.active[id].outstanding == Outstanding(pending, id) + Bit(hand == Some(id))
          && (t.active[id].outstanding > 0 || opening == Some(id)))
    && (hand.Some? ==> hand.value in t.active)
  }

  ghost predicate Fits(pending: map<Transaction, Pending>, t: Tracker, hand: Option<LookupId>, opening: Option<LookupId>)
  {
    TrackerOk(t, opening) && Agrees(pending, t, hand, opening)
  }

  ghost predicate LookupsOk(s: State, hand: Option<LookupId>, opening: Option<LookupId>)
  {
    Fits(s.pending, s.tracker, hand, opening)
  }

  // ------------------------------------------------------------ counting

  lemma OutstandingPut(pending: map<Transaction, Pending>, tx: Transaction, p: Pending, id: LookupId)
    requires tx !in pending
    ensures Outstanding(pending[tx := p], id) == Outstanding(pending, id) + Bit(p.rpc.lookupId == Some(id))
  {
    SumPut(pending, ForLookup(id), tx, p);
  }

  lemma OutstandingTake(pending: map<Transaction, Pending>, tx: Transaction, id: LookupId)
    requires tx in pending
    ensures Outstanding(pending, id) == Outstanding(pending - {tx}, id) + Bit(pending[tx].rpc.lookupId == Some(id))
  {
    SumTake(pending, ForLookup(id), tx);
  }

  lemma NoneOutstanding(pending: map<Transaction, Pending>, id: LookupId)
    requires forall tx | tx in pending :: pending[tx].rpc.lookupId != Some(id)
    ensures Outstanding(pending, id) == 0
  {
    SumZero(pending, ForLookup(id));
  }

  // ------------------------------------------------------------ sends

  /** What sends do to the tracker: counts of active lookups, nothing else. */
  ghost predicate OnlyCounts(t: Tracker, t': Tracker)
  {
    t'.active.Keys == t.active.Keys && t' == t.(active := t'.active)
  }

  lemma AttachTracker(t: Tracker, id: LookupId, opening: Option<LookupId>)
    requires TrackerOk(t, opening) && id in t.active
    ensures TrackerOk(Attach(t, id), opening) && OnlyCounts(t, Attach(t, id))
  {
    assert Attach(t, id).active.Keys == t.active.Keys;
  }

  lemma SendTracker(s: State, cfg: Config, rpc: Rpc, now: int, delivered: bool, opening: Option<LookupId>)
    requires TrackerOk(s.tracker, opening) && RpcOk(rpc, s.tracker)
    ensures TrackerOk(SendRpc(s, cfg, rpc, now, delivered).tracker, opening)
    ensures OnlyCounts(s.tracker, SendRpc(s, cfg, rpc, now, delivered).tracker)
  {
    if rpc.lookupId.Some? {
      AttachTracker(s.tracker, rpc.lookupId.value, opening);
    }
  }

  lemma SameRpcOk(rpc: Rpc, t: Tracker, t': Tracker)
    requires RpcOk(rpc, t) && t'.active.Keys == t.active.Keys && t'.serials == t.serials
    ensures RpcOk(rpc, t')
  {
  }

  lemma AttachCounts(t: Tracker, lookupId: Option<LookupId>)
    requires lookupId.Some? ==> lookupId.value in t.active
    ensures var t' := if lookupId.Some? then Attach(t, lookupId.value) else t;
            && t'.active.Keys == t.active.Keys && t'.serials == t.serials
            && forall id | id in t.active :: t'.active[id].outstanding == t.active[id].outstanding + Bit(lookupId == Some(id))
  {
  }

  lemma AttachAgrees(pending: map<Transaction, Pending>, t: Tracker, tx: Transaction, p: Pending,
                     hand: Option<LookupId>, opening: Option<LookupId>)
    requires Agrees(pending, t, hand, opening) && RpcOk(p.rpc, t) && tx !in pending
    ensures var t' := if p.rpc.lookupId.Some? then Attach(t, p.rpc.lookupId.value) else t;
            Agrees(pending[tx := p], t', hand, opening)
  {
    var t' := if p.rpc.lookupId.Some? then Attach(t, p.rpc.lookupId.value) else t;
    var after := pending[tx := p];
    AttachCounts(t, p.rpc.lookupId);
    hide Attach, RpcOk, Outstanding, Bit;
    forall id | id in t'.active
      ensures t'.active[id].outstanding == Outstanding(after, id) + Bit(hand == Some(id))
      ensures t'.active[id].outstanding > 0 || opening == Some(id)
    {
      assert t.active[id].outstanding == Outstanding(pending, id) + Bit(hand == Some(id));
      OutstandingPut(pending, tx, p, id);
    }
    forall x | x in after
      ensures RpcOk(after[x].rpc, t')
    {
      SameRpcOk(after[x].rpc, t, t');
    }
  }

  lemma SendAgrees(s: State, cfg: Config, rpc: Rpc, now: int, delivered: bool, hand: Option<LookupId>, opening: Option<LookupId>)
    requires Agrees(s.pending, s.tracker, hand, opening) && RpcOk(rpc, s.tracker)
    ensures var s' := SendRpc(s, cfg, rpc, now, delivered); Agrees(s'.pending, s'.tracker, hand, opening)
  {
    hide Agrees;
    AllocateFresh(s, cfg);
    hide Allocate, RpcOk;
    var tx := Allocate(s, cfg).0;
    if tx.Some? && delivered {
      AttachAgrees(s.pending, s.tracker, tx.value, Pending(rpc, now + cfg.rpcTimeout), hand, opening);
    }
  }

  lemma {:induction false} SendAllKeeps(s: State, cfg: Config, rpcs: seq<Rpc>, now: int, delivered: seq<bool>,
                                       hand: Option<LookupId>, opening: Option<LookupId>)
    requires LookupsOk(s, hand, opening) && AllRpcOk(rpcs, s.tracker)
    ensures LookupsOk(SendAll(s, cfg, rpcs, now, delivered), hand, opening)
    ensures OnlyCounts(s.tracker, SendAll(s, cfg, rpcs, now, delivered).tracker)
  {
    hide TrackerOk, Agrees, SendRpc;
    if |rpcs| > 0 {
      var last := |rpcs| - 1;
      SendAllKeeps(s, cfg, rpcs[..last], now, delivered, hand, opening);
      var s1 := SendAll(s, cfg, rpcs[..last], now, delivered);
      SendTracker(s1, cfg, rpcs[last], now, Flag(delivered, last), opening);
      SendAgrees(s1, cfg, rpcs[last], now, Flag(delivered, last), hand, opening);
    }
  }

  // the RPCs of each loop

  lemma GetPeersChildrenOk(parent: Rpc, hash: InfoHash, nodes: seq<Contact>, t: Tracker)
    requires parent.budget > 0 && RpcOk(parent, t) && parent.infoHash.Some?
    requires parent.kind == GetPeers
    ensures AllRpcOk(GetPeersChildren(parent, hash, nodes), t)
  {
  }

  lemma FindNodeChildrenOk(parent: Rpc, nodes: seq<Contact>, t: Tracker)
    requires parent.budget > 0 && !parent.root.Lookup?
    ensures AllRpcOk(FindNodeChildren(parent, nodes), t)
  {
  }

  lemma LookupRpcsOk(hash: InfoHash, nodes: seq<Contact>, lookupId: Option<LookupId>, root: Root, t: Tracker)
    requires match lookupId case None => !root.Lookup? case Some(id) => id in t.active && root == Lookup(SerialOf(t, id))
    ensures AllRpcOk(LookupRpcs(hash, nodes, lookupId, root), t)
  {
  }

  lemma ProbesOk(ourId: NodeId, addrs: seq<SocketAddr>, probes: seq<(Contact, NodeId)>, n: nat, t: Tracker)
    ensures AllRpcOk(BootstrapRpcs(ourId, addrs, n), t)
    ensures AllRpcOk(SampleRpcs(probes, n), t)
  {
  }

  lemma QueueKeeps(s: State, cfg: Config, hash: InfoHash, hand: Option<LookupId>, opening: Option<LookupId>)
    requires LookupsOk(s, hand, opening)
    ensures LookupsOk(QueueHash(s, cfg, hash), hand, opening)
    ensures QueueHash(s, cfg, hash).tracker == s.tracker && QueueHash(s, cfg, hash).pending == s.pending
  {
  }

  lemma {:induction false} QueueAllKeeps(s: State, cfg: Config, hashes: seq<InfoHash>)
    requires LookupsOk(s, None, None)
    ensures LookupsOk(QueueAll(s, cfg, hashes), None, None)
    ensures QueueAll(s, cfg, hashes).tracker == s.tracker
  {
    hide Fits;
    if |hashes| > 0 {
      QueueAllKeeps(s, cfg, hashes[..|hashes| - 1]);
      QueueKeeps(QueueAll(s, cfg, hashes[..|hashes| - 1]), cfg, hashes[|hashes| - 1], None, None);
    }
  }

  // ------------------------------------------------------------ completions

  /** Taking an RPC out of the pending table puts it in the handler's hand. */
  lemma RetireKeeps(s: State, tx: Transaction, until: int)
    requires LookupsOk(s, None, None) && tx in s.pending
    ensures LookupsOk(Retire(s, tx, until), s.pending[tx].rpc.lookupId, None)
  {
    var s' := Retire(s, tx, until);
    forall id | id in s'.tracker.active
      ensures s'.tracker.active[id].outstanding
              == Outstanding(s'.pending, id) + Bit(s.pending[tx].rpc.lookupId == Some(id))
    {
      OutstandingTake(s.pending, tx, id);
    }
    assert RpcOk(s.pending[tx].rpc, s.tracker);
  }

  lemma PendingRpcOk(s: State, tx: Transaction)
    requires LookupsOk(s, None, None) && tx in s.pending
    ensures RpcOk(s.pending[tx].rpc, s.tracker)
  {
  }

  /** Different active ids stand for different lookups. */
  lemma SerialsDiffer(t: Tracker)
    requires NumbersOk(t)
    ensures forall a, b | a in t.active && b in t.active && a != b :: SerialOf(t, a) != SerialOf(t, b)
  {
    hide IdOf;
    assert forall id | id in t.active :: IdOf(SerialOf(t, id)) == id;
  }

  /** Sets of lookups change by the one lookup, its active entry goes or stays. */
  lemma CompleteShape(t: Tracker, id: LookupId, found: bool)
    requires id in t.active && t.active[id].outstanding > 0
    ensures var t', n, last := Complete(t, id, found), SerialOf(t, id), t.active[id].outstanding == 1;
            var peers := t.active[id].peersFound || found;
            && t' == t.(active := t'.active, carried := if found then t.carried + {n} else t.carried,
                        succeeded := if last && peers then t.succeeded + {n} else t.succeeded,
                        succeededCount := if last && peers then t.succeededCount + 1 else t.succeededCount,
                        failed := if last && !peers then t.failed + {n} else t.failed,
                        failedCount := if last && !peers then t.failedCount + 1 else t.failedCount)
            && t'.active.Keys == (if last then t.active.Keys - {id} else t.active.Keys)
            && (forall j | j in t'.active && j != id :: t'.active[j] == t.active[j])
            && (id in t'.active ==> t'.active[id].peersFound == peers)
  {
  }

  lemma CompleteNumbers(t: Tracker, id: LookupId, found: bool)
    requires NumbersOk(t) && id in t.active && t.active[id].outstanding > 0
    ensures NumbersOk(Complete(t, id, found))
  {
    CompleteShape(t, id, found);
    hide IdOf, Complete;
  }

  lemma CompleteCounts(t: Tracker, id: LookupId, found: bool)
    requires CountsOk(t) && id in t.active && t.active[id].outstanding > 0
    requires SerialOf(t, id) !in t.succeeded && SerialOf(t, id) !in t.failed
    ensures CountsOk(Complete(t, id, found))
  {
    CompleteShape(t, id, found);
    hide Complete;
  }

  lemma CompleteInitiated(t: Tracker, id: LookupId, found: bool, n: nat)
    requires NumbersOk(t) && HistoryOk(t, None) && id in t.active && t.active[id].outstanding > 0 && n in t.initiated
    ensures var t' := Complete(t, id, found); n in t'.succeeded || n in t'.failed || Live(t', n)
  {
    CompleteShape(t, id, found);
    hide IdOf, Complete;
    if n !in t.succeeded && n !in t.failed {
      assert Live(t, n);
    }
  }

  lemma CompleteActive(t: Tracker, id: LookupId, found: bool, j: LookupId)
    requires NumbersOk(t) && HistoryOk(t, None) && id in t.active && t.active[id].outstanding > 0
    requires j in Complete(t, id, found).active
    ensures var t' := Complete(t, id, found);
            && SerialOf(t', j) !in t'.succeeded && SerialOf(t', j) !in t'.failed && SerialOf(t', j) in t'.initiated
            && (t'.active[j].peersFound <==> SerialOf(t', j) in t'.carried)
  {
    CompleteShape(t, id, found);
    SerialsDiffer(t);
    hide IdOf, Complete;
  }

  lemma CompleteHistory(t: Tracker, id: LookupId, found: bool)
    requires NumbersOk(t) && HistoryOk(t, None) && id in t.active && t.active[id].outstanding > 0
    ensures HistoryOk(Complete(t, id, found), None)
  {
    var t' := Complete(t, id, found);
    forall n | n in t'.initiated
      ensures n in t'.succeeded || n in t'.failed || Live(t', n)
    {
      CompleteShape(t, id, found);
      CompleteInitiated(t, id, found, n);
    }
    forall j | j in t'.active
      ensures SerialOf(t', j) !in t'.succeeded && SerialOf(t', j) !in t'.failed && SerialOf(t', j) in t'.initiated
      ensures t'.active[j].peersFound <==> SerialOf(t', j) in t'.carried
    {
      CompleteActive(t, id, found, j);
    }
    CompleteShape(t, id, found);
    hide IdOf, Complete, Live, NumbersOk;
    assert SerialOf(t, id) in t.initiated;
    assert t.active[id].peersFound <==> SerialOf(t, id) in t.carried;
  }

  lemma CompleteTracker(t: Tracker, id: LookupId, found: bool)
    requires TrackerOk(t, None) && id in t.active && t.active[id].outstanding > 0
    ensures TrackerOk(Complete(t, id, found), None)
  {
    assert SerialOf(t, id) !in t.succeeded && SerialOf(t, id) !in t.failed;
    hide NumbersOk, CountsOk, HistoryOk, Complete;
    CompleteNumbers(t, id, found);
    CompleteCounts(t, id, found);
    CompleteHistory(t, id, found);
  }

  lemma ActiveAfterComplete(t: Tracker, id: LookupId, found: bool)
    requires id in t.active && t.active[id].outstanding > 0
    ensures var t' := Complete(t, id, found);
            && (forall j | j != id :: j in t'.active <==> j in t.active)
            && (forall j | j != id && j in t.active :: t'.active[j] == t.active[j])
            && (id in t'.active <==> t.active[id].outstanding > 1)
            && (id in t'.active ==> t'.active[id].outstanding == t.active[id].outstanding - 1)
  {
  }

  lemma CompleteRpcs(pending: map<Transaction, Pending>, t: Tracker, id: LookupId, found: bool)
    requires Agrees(pending, t, Some(id), None)
    ensures forall tx | tx in pending :: RpcOk(pending[tx].rpc, Complete(t, id, found))
  {
    ActiveAfterComplete(t, id, found);
    forall tx | tx in pending
      ensures RpcOk(pending[tx].rpc, Complete(t, id, found))
    {
      assert RpcOk(pending[tx].rpc, t);
      if pending[tx].rpc.lookupId == Some(id) {
        SumBounds(pending, ForLookup(id));
        assert ForLookup(id)(pending[tx]) == 1;
      }
    }
  }

  lemma CompleteAgrees(pending: map<Transaction, Pending>, t: Tracker, id: LookupId, found: bool)
    requires Agrees(pending, t, Some(id), None)
    ensures Agrees(pending, Complete(t, id, found), None, None)
  {
    ActiveAfterComplete(t, id, found);
    CompleteRpcs(pending, t, id, found);
  }

  /** Completing the RPC in hand restores the agreement; the last completion closes the lookup. */
  lemma CompleteKeeps(s: State, lookupId: Option<LookupId>, found: bool)
    requires LookupsOk(s, lookupId, None)
    ensures LookupsOk(CompleteFor(s, lookupId, found), None, None)
  {
    hide TrackerOk, Agrees, Complete;
    if lookupId.Some? {
      HandPositive(s.pending, s.tracker, lookupId.value);
      CompleteTracker(s.tracker, lookupId.value, found);
      CompleteAgrees(s.pending, s.tracker, lookupId.value, found);
    }
  }

  lemma HandPositive(pending: map<Transaction, Pending>, t: Tracker, id: LookupId)
    requires Agrees(pending, t, Some(id), None)
    ensures id in t.active && t.active[id].outstanding > 0
  {
  }

  /** The lookup that id stands for, if there is one. */
  function OneOrNone(t: Tracker, id: Option<LookupId>): set<nat>
  {
    match id
    case None => {}
    case Some(x) => {SerialOf(t, x)}
  }

  /** What a completion does to numbers and to the history of answers with peers. */
  ghost predicate CarriedGrows(t: Tracker, t': Tracker, ns: set<nat>)
  {
    t'.begun == t.begun && t'.carried == t.carried + ns
  }

  lemma CompleteCarries(s: State, lookupId: Option<LookupId>, found: bool)
    requires lookupId.Some? ==> lookupId.value in s.tracker.active
    ensures CarriedGrows(s.tracker, CompleteFor(s, lookupId, found).tracker, OneOrNone(s.tracker, if found then lookupId else None))
  {
  }

  // ------------------------------------------------------------ handlers

  lemma ExpireOneKeeps(s: State, cfg: Config, tx: Transaction, now: int)
    requires LookupsOk(s, None, None)
    ensures LookupsOk(ExpireOne(s, cfg, tx, now), None, None)
    ensures ExpireOne(s, cfg, tx, now).tracker.begun == s.tracker.begun
    ensures ExpireOne(s, cfg, tx, now).tracker.carried == s.tracker.carried
  {
    hide Fits, Complete;
    if tx in s.pending {
      var rpc := s.pending[tx].rpc;
      var s1 := Retire(s, tx, now + cfg.rpcTimeout);
      RetireKeeps(s, tx, now + cfg.rpcTimeout);
      var s2 := if rpc.isRealLookup && rpc.infoHash.Some? then QueueHash(s1, cfg, rpc.infoHash.value) else s1;
      assert s2.tracker == s1.tracker && s2.pending == s1.pending;
      InHandActive(s2, rpc.lookupId);
      CompleteKeeps(s2, rpc.lookupId, false);
      CompleteCarries(s2, rpc.lookupId, false);
    }
  }

  lemma {:induction false} ExpireAllKeeps(s: State, cfg: Config, order: seq<Transaction>, now: int)
    requires LookupsOk(s, None, None)
    ensures LookupsOk(ExpireAll(s, cfg, order, now), None, None)
    ensures ExpireAll(s, cfg, order, now).tracker.begun == s.tracker.begun
    ensures ExpireAll(s, cfg, order, now).tracker.carried == s.tracker.carried
  {
    hide Fits;
    if |order| > 0 {
      ExpireAllKeeps(s, cfg, order[..|order| - 1], now);
      ExpireOneKeeps(ExpireAll(s, cfg, order[..|order| - 1], now), cfg, order[|order| - 1], now);
    }
  }

  lemma ExpireKeeps(s: State, cfg: Config, order: seq<Transaction>, now: int)
    requires LookupsOk(s, None, None)
    ensures LookupsOk(ExpirePending(s, cfg, order, now), None, None)
    ensures ExpirePending(s, cfg, order, now).tracker.begun == s.tracker.begun
    ensures ExpirePending(s, cfg, order, now).tracker.carried == s.tracker.carried
  {
    assert LookupsOk(DropReusable(s, now), None, None);
    ExpireAllKeeps(DropReusable(s, now), cfg, order, now);
  }

  lemma FindNodeKeeps(s: State, cfg: Config, nodes: seq<Contact>, parent: Rpc, now: int, delivered: seq<bool>)
    requires LookupsOk(s, None, None) && !parent.root.Lookup?
    ensures LookupsOk(ContinueFindNode(s, cfg, nodes, parent, now, delivered), None, None)
    ensures OnlyCounts(s.tracker, ContinueFindNode(s, cfg, nodes, parent, now, delivered).tracker)
  {
    hide Fits;
    if parent.budget > 0 {
      var chosen := Take(nodes, LOOKUP_CONTINUATION_FANOUT);
      FindNodeChildrenOk(parent, chosen, s.tracker);
      SendAllKeeps(s, cfg, FindNodeChildren(parent, chosen), now, delivered, None, None);
    }
  }

  lemma ContinueGetPeersKeeps(s: State, cfg: Config, hash: InfoHash, nodes: seq<Contact>, rpc: Rpc, now: int, delivered: seq<bool>)
    requires LookupsOk(s, rpc.lookupId, None) && RpcOk(rpc, s.tracker) && rpc.kind == GetPeers && rpc.infoHash.Some?
    ensures LookupsOk(ContinueGetPeers(s, cfg, hash, nodes, rpc, now, delivered), rpc.lookupId, None)
    ensures OnlyCounts(s.tracker, ContinueGetPeers(s, cfg, hash, nodes, rpc, now, delivered).tracker)
  {
    hide Fits;
    if rpc.budget > 0 {
      var chosen := Take(nodes, LOOKUP_CONTINUATION_FANOUT);
      GetPeersChildrenOk(rpc, hash, chosen, s.tracker);
      SendAllKeeps(s, cfg, GetPeersChildren(rpc, hash, chosen), now, delivered, rpc.lookupId, None);
    }
  }

  lemma GetPeersKeeps(s: State, cfg: Config, rpc: Rpc, m: Response, now: int, delivered: seq<bool>)
    requires LookupsOk(s, rpc.lookupId, None) && RpcOk(rpc, s.tracker) && rpc.kind == GetPeers
    ensures LookupsOk(GetPeersAnswered(s, cfg, rpc, m, now, delivered), None, None)
    ensures CarriedGrows(s.tracker, GetPeersAnswered(s, cfg, rpc, m, now, delivered).tracker,
                         OneOrNone(s.tracker, if Peers(m) != [] then rpc.lookupId else None))
  {
    hide Fits;
    var hasPeers := Peers(m) != [];
    if rpc.infoHash.None? {
      CompleteKeeps(s, rpc.lookupId, hasPeers);
      CompleteCarries(s, rpc.lookupId, hasPeers);
    } else {
      var hash := rpc.infoHash.value;
      var q := if hasPeers || rpc.isRealLookup then QueueHash(s, cfg, hash) else s;
      QueueKeeps(s, cfg, hash, rpc.lookupId, None);
      var s1 := ContinueGetPeers(q, cfg, hash, Nodes(m), rpc, now, delivered);
      ContinueGetPeersKeeps(q, cfg, hash, Nodes(m), rpc, now, delivered);
      CompleteKeeps(s1, rpc.lookupId, hasPeers);
      CompleteCarries(s1, rpc.lookupId, hasPeers);
    }
  }

  /** The lookup whose correlated response with peers this input is, if it is one. */
  function CarriedBy(s: State, input: Input): set<nat>
  {
    match input
    case Answer(m, source, _, _) =>
      (match Correlate(s.pending, m, source)
       case Correlated(tx) =>
         OneOrNone(s.tracker, if Peers(m) != [] && s.pending[tx].rpc.kind == GetPeers then s.pending[tx].rpc.lookupId else None)
       case _ => {})
    case _ => {}
  }

  lemma AnsweredKeeps(s: State, cfg: Config, rpc: Rpc, m: Response, now: int, delivered: seq<bool>)
    requires LookupsOk(s, rpc.lookupId, None) && RpcOk(rpc, s.tracker)
    ensures LookupsOk(Answered(s, cfg, rpc, m, now, delivered), None, None)
    ensures CarriedGrows(s.tracker, Answered(s, cfg, rpc, m, now, delivered).tracker,
                         OneOrNone(s.tracker, if Peers(m) != [] && rpc.kind == GetPeers then rpc.lookupId else None))
  {
    hide Fits;
    match rpc.kind
    case Ping =>
    case FindNode => FindNodeKeeps(s, cfg, Nodes(m), rpc, now, delivered);
    case GetPeers => GetPeersKeeps(s, cfg, rpc, m, now, delivered);
    case SampleInfohashes =>
      if m.samples.Some? {
        QueueAllKeeps(s, cfg, m.samples.value);
      }
  }

  /** Removal without an answer: malformed, error or timeout. */
  lemma FailKeeps(s: State, tx: Transaction, until: int)
    requires LookupsOk(s, None, None) && tx in s.pending
    ensures var s' := CompleteFor(Retire(s, tx, until), s.pending[tx].rpc.lookupId, false);
            LookupsOk(s', None, None) && CarriedGrows(s.tracker, s'.tracker, {})
  {
    hide Fits, Complete;
    RetireKeeps(s, tx, until);
    InHandActive(Retire(s, tx, until), s.pending[tx].rpc.lookupId);
    CompleteKeeps(Retire(s, tx, until), s.pending[tx].rpc.lookupId, false);
    CompleteCarries(Retire(s, tx, until), s.pending[tx].rpc.lookupId, false);
  }

  lemma InHandActive(s: State, hand: Option<LookupId>)
    requires LookupsOk(s, hand, None)
    ensures hand.Some? ==> hand.value in s.tracker.active
  {
  }

  lemma ResponseKeeps(s: State, cfg: Config, m: Response, source: SocketAddr, now: int, delivered: seq<bool>)
    requires LookupsOk(s, None, None)
    ensures LookupsOk(HandleResponse(s, cfg, m, source, now, delivered), None, None)
    ensures CarriedGrows(s.tracker, HandleResponse(s, cfg, m, source, now, delivered).tracker,
                         CarriedBy(s, Answer(m, source, now, delivered)))
  {
    hide Fits, Answered, CompleteFor;
    match Correlate(s.pending, m, source)
    case Unsolicited =>
    case UnexpectedSource =>
    case Malformed(tx) =>
      FailKeeps(s, tx, now + cfg.rpcTimeout);
    case Correlated(tx) =>
      RetireKeeps(s, tx, now + cfg.rpcTimeout);
      PendingRpcOk(s, tx);
      AnsweredKeeps(Retire(s, tx, now + cfg.rpcTimeout), cfg, s.pending[tx].rpc, m, now, delivered);
  }

  lemma ErrorKeeps(s: State, cfg: Config, id: IncomingId, source: SocketAddr, now: int)
    requires LookupsOk(s, None, None)
    ensures LookupsOk(HandleError(s, cfg, id, source, now), None, None)
    ensures CarriedGrows(s.tracker, HandleError(s, cfg, id, source, now).tracker, {})
  {
    hide Fits, CompleteFor;
    if id.Ours? && id.tx in s.pending && s.pending[id.tx].rpc.addr == source {
      FailKeeps(s, id.tx, now + cfg.rpcTimeout);
    }
  }

  lemma NextNumber(n: nat)
    ensures IdOf(n + 1) == (IdOf(n) + 1) % LOOKUP_IDS
  {
  }

  /** A lookup begins under an id that no active one has. */
  lemma BeginTracker(t: Tracker)
    requires TrackerOk(t, None) && t.nextId !in t.active
    ensures TrackerOk(Begin(t), Some(t.nextId))
  {
    NextNumber(t.begun);
    hide IdOf;
    var t' := Begin(t);
    assert forall id | id in t.active :: SerialOf(t', id) == SerialOf(t, id) && t'.active[id] == t.active[id];
    assert SerialOf(t', t.nextId) == t.begun && t.begun !in t.initiated;
    assert forall n | Live(t, n) :: Live(t', n) && IdOf(n) != t.nextId;
  }

  lemma BeginRpcOk(rpc: Rpc, t: Tracker)
    requires RpcOk(rpc, t) && t.nextId !in t.active
    ensures RpcOk(rpc, Begin(t)) && rpc.lookupId != Some(t.nextId)
  {
  }

  lemma BeginKeeps(s: State)
    requires LookupsOk(s, None, None) && s.tracker.nextId !in s.tracker.active
    ensures LookupsOk(s.(tracker := Begin(s.tracker)), None, Some(s.tracker.nextId))
  {
    BeginTracker(s.tracker);
    hide TrackerOk, RpcOk, Outstanding;
    var id := s.tracker.nextId;
    forall tx | tx in s.pending
      ensures RpcOk(s.pending[tx].rpc, Begin(s.tracker)) && s.pending[tx].rpc.lookupId != Some(id)
    {
      BeginRpcOk(s.pending[tx].rpc, s.tracker);
    }
    NoneOutstanding(s.pending, id);
  }

  lemma StartedShape(t: Tracker, id: LookupId)
    requires id in t.active
    ensures var t', n, sent := Started(t, id), SerialOf(t, id), t.active[id].outstanding > 0;
            && t' == t.(active := t'.active, initiated := if sent then t.initiated + {n} else t.initiated,
                        initiatedCount := if sent then t.initiatedCount + 1 else t.initiatedCount)
            && t'.active.Keys == (if sent then t.active.Keys else t.active.Keys - {id})
            && (forall j | j in t'.active :: t'.active[j] == t.active[j])
  {
  }

  lemma StartedNumbers(t: Tracker, id: LookupId)
    requires NumbersOk(t) && id in t.active
    ensures NumbersOk(Started(t, id))
  {
    StartedShape(t, id);
    hide IdOf, Started;
  }

  lemma StartedInitiated(t: Tracker, id: LookupId, n: nat)
    requires NumbersOk(t) && HistoryOk(t, Some(id)) && n in Started(t, id).initiated
    ensures var t' := Started(t, id); n in t'.succeeded || n in t'.failed || Live(t', n)
  {
    StartedShape(t, id);
    hide IdOf, Started;
    if n in t.initiated && n !in t.succeeded && n !in t.failed {
      assert Live(t, n) && IdOf(n) != id;
    }
  }

  lemma StartedHistory(t: Tracker, id: LookupId)
    requires NumbersOk(t) && HistoryOk(t, Some(id))
    ensures HistoryOk(Started(t, id), None)
  {
    var t' := Started(t, id);
    forall n | n in t'.initiated
      ensures n in t'.succeeded || n in t'.failed || Live(t', n)
    {
      StartedInitiated(t, id, n);
    }
    StartedShape(t, id);
    hide IdOf, Started, Live, NumbersOk;
    assert forall j | j in t'.active :: j in t.active && SerialOf(t', j) == SerialOf(t, j);
  }

  lemma StartedTracker(t: Tracker, id: LookupId)
    requires TrackerOk(t, Some(id))
    ensures TrackerOk(Started(t, id), None)
  {
    StartedNumbers(t, id);
    StartedHistory(t, id);
    StartedShape(t, id);
    assert SerialOf(t, id) !in t.initiated;
    hide NumbersOk, HistoryOk, Started;
  }

  lemma StartedRpcs(s: State, id: LookupId)
    requires LookupsOk(s, None, Some(id))
    ensures forall tx | tx in s.pending :: RpcOk(s.pending[tx].rpc, Started(s.tracker, id))
  {
    hide TrackerOk;
    forall tx | tx in s.pending
      ensures RpcOk(s.pending[tx].rpc, Started(s.tracker, id))
    {
      assert RpcOk(s.pending[tx].rpc, s.tracker);
      if s.pending[tx].rpc.lookupId == Some(id) {
        SumBounds(s.pending, ForLookup(id));
        assert ForLookup(id)(s.pending[tx]) == 1;
      }
    }
  }

  lemma StartedKeeps(s: State, id: LookupId)
    requires LookupsOk(s, None, Some(id))
    ensures LookupsOk(s.(tracker := Started(s.tracker, id)), None, None)
  {
    StartedTracker(s.tracker, id);
    StartedRpcs(s, id);
    hide TrackerOk, RpcOk, Outstanding;
  }

  lemma StartRealKeeps(s: State, cfg: Config, hash: InfoHash, nodes: seq<Contact>, now: int, delivered: seq<bool>)
    requires LookupsOk(s, None, None) && s.tracker.nextId !in s.tracker.active
    ensures var s' := StartReal(s, cfg, hash, nodes, now, delivered);
            && LookupsOk(s', None, None)
            && s'.tracker.begun == s.tracker.begun + 1 && s'.tracker.carried == s.tracker.carried
  {
    hide Fits, SendAll;
    var id := s.tracker.nextId;
    BeginKeeps(s);
    var b := s.(tracker := Begin(s.tracker));
    var rpcs := LookupRpcs(hash, nodes, Some(id), Lookup(s.tracker.begun));
    LookupRpcsOk(hash, nodes, Some(id), Lookup(s.tracker.begun), b.tracker);
    SendAllKeeps(b, cfg, rpcs, now, delivered, None, Some(id));
    StartedKeeps(SendAll(b, cfg, rpcs, now, delivered), id);
  }

  // a lookup that begins under an id still in use

  /** Sends for one lookup leave the gap between its pending RPCs and its count as it was. */
  lemma {:induction false} SendAllGap(s: State, cfg: Config, rpcs: seq<Rpc>, now: int, delivered: seq<bool>, id: LookupId)
    requires id in s.tracker.active && forall i | 0 <= i < |rpcs| :: rpcs[i].lookupId == Some(id)
    ensures var s' := SendAll(s, cfg, rpcs, now, delivered);
            && id in s'.tracker.active
            && Outstanding(s'.pending, id) - s'.tracker.active[id].outstanding
               == Outstanding(s.pending, id) - s.tracker.active[id].outstanding
  {
    hide SendRpc, Outstanding;
    if |rpcs| > 0 {
      var last := |rpcs| - 1;
      SendAllGap(s, cfg, rpcs[..last], now, delivered, id);
      SendGap(SendAll(s, cfg, rpcs[..last], now, delivered), cfg, rpcs[last], now, Flag(delivered, last), id);
    }
  }

  lemma SendGap(s: State, cfg: Config, rpc: Rpc, now: int, delivered: bool, id: LookupId)
    requires id in s.tracker.active && rpc.lookupId == Some(id)
    ensures var s' := SendRpc(s, cfg, rpc, now, delivered);
            && id in s'.tracker.active
            && Outstanding(s'.pending, id) - s'.tracker.active[id].outstanding
               == Outstanding(s.pending, id) - s.tracker.active[id].outstanding
  {
    AllocateFresh(s, cfg);
    hide Allocate, Outstanding;
    var tx := Allocate(s, cfg).0;
    if tx.Some? && delivered {
      OutstandingPut(s.pending, tx.value, Pending(rpc, now + cfg.rpcTimeout), id);
    }
  }

  /** The entry of the active lookup is overwritten, its pending RPCs are no longer accounted for. */
  lemma ReuseBreaks(s: State, cfg: Config, hash: InfoHash, nodes: seq<Contact>, now: int, delivered: seq<bool>)
    requires LookupsOk(s, None, None) && s.tracker.nextId in s.tracker.active
    ensures !LookupsOk(StartReal(s, cfg, hash, nodes, now, delivered), None, None)
  {
    hide TrackerOk, SendAll;
    var id := s.tracker.nextId;
    var b := s.(tracker := Begin(s.tracker));
    var s1 := SendAll(b, cfg, LookupRpcs(hash, nodes, Some(id), Lookup(s.tracker.begun)), now, delivered);
    SendAllGap(b, cfg, LookupRpcs(hash, nodes, Some(id), Lookup(s.tracker.begun)), now, delivered, id);
    assert Outstanding(s1.pending, id) > s1.tracker.active[id].outstanding;
    var s' := StartReal(s, cfg, hash, nodes, now, delivered);
    assert s'.pending == s1.pending;
    if id !in s'.tracker.active && forall tx | tx in s'.pending :: RpcOk(s'.pending[tx].rpc, s'.tracker) {
      forall tx | tx in s'.pending
        ensures s'.pending[tx].rpc.lookupId != Some(id)
      {
        assert RpcOk(s'.pending[tx].rpc, s'.tracker);
      }
      NoneOutstanding(s'.pending, id);
      assert false;
    }
  }

  lemma BootstrapKeeps(s: State, cfg: Config, ourId: NodeId, addrs: seq<SocketAddr>, now: int, delivered: seq<bool>)
    requires LookupsOk(s, None, None)
    ensures LookupsOk(RunBootstrap(s, cfg, ourId, addrs, now, delivered), None, None)
    ensures OnlyCounts(s.tracker, RunBootstrap(s, cfg, ourId, addrs, now, delivered).tracker)
  {
    hide Fits, SendAll;
    var s1 := s.(nextProbe := s.nextProbe + |addrs|);
    ProbesOk(ourId, addrs, [], s.nextProbe, s.tracker);
    SendAllKeeps(s1, cfg, BootstrapRpcs(ourId, addrs, s.nextProbe), now, delivered, None, None);
  }

  lemma StartRandomKeeps(s: State, cfg: Config, hash: InfoHash, nodes: seq<Contact>, now: int, delivered: seq<bool>)
    requires LookupsOk(s, None, None)
    ensures LookupsOk(StartRandom(s, cfg, hash, nodes, now, delivered), None, None)
    ensures OnlyCounts(s.tracker, StartRandom(s, cfg, hash, nodes, now, delivered).tracker)
  {
    hide Fits, SendAll;
    var s1 := s.(nextProbe := s.nextProbe + 1);
    LookupRpcsOk(hash, nodes, None, RandomLookup(s.nextProbe), s.tracker);
    SendAllKeeps(s1, cfg, LookupRpcs(hash, nodes, None, RandomLookup(s.nextProbe)), now, delivered, None, None);
  }

  lemma SamplingKeeps(s: State, cfg: Config, probes: seq<(Contact, NodeId)>, now: int, delivered: seq<bool>)
    requires LookupsOk(s, None, None)
    ensures LookupsOk(RunSampling(s, cfg, probes, now, delivered), None, None)
    ensures OnlyCounts(s.tracker, RunSampling(s, cfg, probes, now, delivered).tracker)
  {
    hide Fits, SendAll;
    var s1 := s.(nextProbe := s.nextProbe + |probes|);
    ProbesOk(ZERO_ID, [], probes, s.nextProbe, s.tracker);
    SendAllKeeps(s1, cfg, SampleRpcs(probes, s.nextProbe), now, delivered, None, None);
  }

  lemma DiscoverKeeps(s: State, cfg: Config, ourId: NodeId, tick: Tick, now: int, delivered: seq<bool>)
    requires LookupsOk(s, None, None) && !Reuses(s, cfg, DiscoveryTick(tick, now, delivered))
    ensures var s' := Discover(s, cfg, ourId, tick, now, delivered);
            && LookupsOk(s', None, None)
            && s'.tracker.begun <= s.tracker.begun + 1 && s'.tracker.carried == s.tracker.carried
  {
    hide Fits, ExpirePending, RunBootstrap, StartReal, StartRandom, QueueHash;
    ExpireKeeps(s, cfg, tick.order, now);
    var s0 := ExpirePending(s, cfg, tick.order, now);
    var nodes := tick.nodes;
    if s0.queue != [] {
      var hash := s0.queue[0];
      var s1 := s0.(queue := s0.queue[1..], queued := s0.queued - {hash});
      assert LookupsOk(s1, None, None);
      if nodes == [] {
        QueueKeeps(s1, cfg, hash, None, None);
        BootstrapKeeps(QueueHash(s1, cfg, hash), cfg, ourId, tick.bootstrap, now, delivered);
      } else {
        StartRealKeeps(s1, cfg, hash, nodes, now, delivered);
      }
    } else if nodes == [] {
      BootstrapKeeps(s0, cfg, ourId, tick.bootstrap, now, delivered);
    } else {
      StartRandomKeeps(s0, cfg, tick.randomId, nodes, now, delivered);
    }
  }

  lemma DiscoverBreaks(s: State, cfg: Config, ourId: NodeId, tick: Tick, now: int, delivered: seq<bool>)
    requires LookupsOk(s, None, None) && Reuses(s, cfg, DiscoveryTick(tick, now, delivered))
    ensures !LookupsOk(Discover(s, cfg, ourId, tick, now, delivered), None, None)
  {
    hide Fits, ExpirePending, StartReal;
    ExpireKeeps(s, cfg, tick.order, now);
    var s0 := ExpirePending(s, cfg, tick.order, now);
    var nodes := tick.nodes;
    var s1 := s0.(queue := s0.queue[1..], queued := s0.queued - {s0.queue[0]});
    assert LookupsOk(s1, None, None);
    ReuseBreaks(s1, cfg, s0.queue[0], nodes, now, delivered);
  }

  /** One input of any kind. */
  lemma StepKeeps(s: State, cfg: Config, ourId: NodeId, input: Input)
    requires LookupsOk(s, None, None) && !Reuses(s, cfg, input)
    ensures var s' := Step(s, cfg, ourId, input);
            && LookupsOk(s', None, None)
            && s'.tracker.begun <= s.tracker.begun + 1
            && s'.tracker.carried == s.tracker.carried + CarriedBy(s, input)
  {
    hide Fits, HandleResponse, HandleError, QueueAll, ExpirePending, Discover, RunSampling, RunBootstrap, Correlate;
    match input
    case Answer(m, source, now, delivered) => ResponseKeeps(s, cfg, m, source, now, delivered);
    case Error(id, source, now) => ErrorKeeps(s, cfg, id, source, now);
    case Observe(hashes) => QueueAllKeeps(s, cfg, hashes);
    case Refresh(order, now) => ExpireKeeps(s, cfg, order, now);
    case DiscoveryTick(tick, now, delivered) => DiscoverKeeps(s, cfg, ourId, tick, now, delivered);
    case SamplingTick(probes, now, delivered) => SamplingKeeps(s, cfg, probes, now, delivered);
    case BootstrapAll(addrs, now, delivered) => BootstrapKeeps(s, cfg, ourId, addrs, now, delivered);
  }

  /** An input keeps the accounting if and only if it does not begin a lookup under an id still in use. */
  lemma StepExactly(s: State, cfg: Config, ourId: NodeId, input: Input)
    requires LookupsOk(s, None, None)
    ensures LookupsOk(Step(s, cfg, ourId, input), None, None) <==> !Reuses(s, cfg, input)
  {
    hide LookupsOk, Reuses, Discover;
    if Reuses(s, cfg, input) {
      assert input.DiscoveryTick? by { ReusesTick(s, cfg, input); }
      DiscoverBreaks(s, cfg, ourId, input.tick, input.now, input.delivered);
    } else {
      StepKeeps(s, cfg, ourId, input);
    }
  }

  lemma ReusesTick(s: State, cfg: Config, input: Input)
    requires Reuses(s, cfg, input)
    ensures input.DiscoveryTick?
  {
  }

  // ------------------------------------------------------------ whole runs

  lemma InitialOk(nextTx: Transaction)
    ensures LookupsOk(Initial(nextTx), None, None)
  {
  }

  /** No lookup of the run begins under an id still in use. */
  ghost predicate NoReuse(cfg: Config, ourId: NodeId, nextTx: Transaction, inputs: seq<Input>)
  {
    forall k | 0 <= k < |inputs| :: !Reuses(Run(Initial(nextTx), cfg, ourId, inputs[..k]), cfg, inputs[k])
  }

  lemma NoReuseFront(cfg: Config, ourId: NodeId, nextTx: Transaction, inputs: seq<Input>)
    requires |inputs| > 0
    ensures var front, last := inputs[..|inputs| - 1], inputs[|inputs| - 1];
            NoReuse(cfg, ourId, nextTx, inputs)
            <==> NoReuse(cfg, ourId, nextTx, front) && !Reuses(Run(Initial(nextTx), cfg, ourId, front), cfg, last)
  {
    hide Run, Reuses;
    var front := inputs[..|inputs| - 1];
    assert forall k | 0 <= k < |front| :: front[..k] == inputs[..k] && front[k] == inputs[k];
  }

  lemma {:induction false} RunKeeps(cfg: Config, ourId: NodeId, nextTx: Transaction, inputs: seq<Input>)
    requires NoReuse(cfg, ourId, nextTx, inputs)
    ensures LookupsOk(Run(Initial(nextTx), cfg, ourId, inputs), None, None)
    ensures Run(Initial(nextTx), cfg, ourId, inputs).tracker.begun <= |inputs|
  {
    hide Fits, Step, NoReuse, Reuses;
    if |inputs| == 0 {
      InitialOk(nextTx);
    } else {
      var front := inputs[..|inputs| - 1];
      NoReuseFront(cfg, ourId, nextTx, inputs);
      RunKeeps(cfg, ourId, nextTx, front);
      StepKeeps(Run(Initial(nextTx), cfg, ourId, front), cfg, ourId, inputs[|inputs| - 1]);
    }
  }

  /** The accounting holds in every state of a run if and only if no lookup of it begins under an id in use. */
  lemma RunExactly(cfg: Config, ourId: NodeId, nextTx: Transaction, inputs: seq<Input>)
    ensures NoReuse(cfg, ourId, nextTx, inputs)
            <==> forall k | 0 <= k <= |inputs| :: LookupsOk(Run(Initial(nextTx), cfg, ourId, inputs[..k]), None, None)
  {
    hide LookupsOk, Step, Reuses;
    if NoReuse(cfg, ourId, nextTx, inputs) {
      forall k | 0 <= k <= |inputs|
        ensures LookupsOk(Run(Initial(nextTx), cfg, ourId, inputs[..k]), None, None)
      {
        assert forall j | 0 <= j < k :: inputs[..k][..j] == inputs[..j];
        RunKeeps(cfg, ourId, nextTx, inputs[..k]);
      }
    } else {
      var k :| 0 <= k < |inputs| && Reuses(Run(Initial(nextTx), cfg, ourId, inputs[..k]), cfg, inputs[k]);
      if LookupsOk(Run(Initial(nextTx), cfg, ourId, inputs[..k]), None, None) {
        StepExactly(Run(Initial(nextTx), cfg, ourId, inputs[..k]), cfg, ourId, inputs[k]);
        assert inputs[..k + 1][..k] == inputs[..k];
      }
    }
  }

  lemma TrackerOf(s: State)
    requires LookupsOk(s, None, None)
    ensures TrackerOk(s.tracker, None)
  {
  }

  lemma {:induction false} ImageSize(ids: set<LookupId>, t: Tracker)
    requires ids <= t.active.Keys && NumbersOk(t)
    ensures |set id | id in ids :: SerialOf(t, id)| == |ids|
  {
    if ids != {} {
      var x :| x in ids;
      ImageSize(ids - {x}, t);
      SerialsDiffer(t);
      assert (set id | id in ids :: SerialOf(t, id)) == (set id | id in ids - {x} :: SerialOf(t, id)) + {SerialOf(t, x)};
    }
  }

  /** In every state between handlers of every run in which no lookup begins under an id still in use: each active
      lookup's count is positive and is the number of pending RPCs carrying its id, every id a pending RPC carries is
      active, and every initiated lookup is either active or was finalised exactly once, one way. */
  lemma LookupAccounting(cfg: Config, ourId: NodeId, nextTx: Transaction, inputs: seq<Input>)
    requires NoReuse(cfg, ourId, nextTx, inputs)
    ensures var s := Run(Initial(nextTx), cfg, ourId, inputs);
            var t := s.tracker;
            && (forall id | id in t.active :: t.active[id].outstanding > 0
                                              && t.active[id].outstanding == Outstanding(s.pending, id))
            && (forall tx | tx in s.pending && s.pending[tx].rpc.lookupId.Some? ::
                  s.pending[tx].rpc.lookupId.value in t.active && s.pending[tx].rpc.kind == GetPeers)
            && t.initiatedCount == t.succeededCount + t.failedCount + |t.active|
            && t.initiated == t.succeeded + t.failed + LiveOnes(t)
            && t.succeededCount == |t.succeeded| && t.failedCount == |t.failed|
            && t.succeeded !! t.failed && (t.succeeded + t.failed) !! LiveOnes(t)
  {
    hide Run, IdOf, NoReuse;
    RunKeeps(cfg, ourId, nextTx, inputs);
    var s := Run(Initial(nextTx), cfg, ourId, inputs);
    var t := s.tracker;
    forall tx | tx in s.pending && s.pending[tx].rpc.lookupId.Some?
      ensures s.pending[tx].rpc.lookupId.value in t.active && s.pending[tx].rpc.kind == GetPeers
    {
      assert RpcOk(s.pending[tx].rpc, t);
    }
    AllAccounted(t);
  }

  lemma LiveOnesIff(t: Tracker, n: nat)
    requires NumbersOk(t)
    ensures n in LiveOnes(t) <==> Live(t, n)
  {
    hide IdOf;
    if n in LiveOnes(t) {
      var id :| id in t.active && SerialOf(t, id) == n;
      assert IdOf(t.serials[id]) == id;
    }
    if Live(t, n) {
      assert SerialOf(t, IdOf(n)) == n;
    }
  }

  lemma LiveHistory(t: Tracker, n: nat)
    requires HistoryOk(t, None)
    ensures n in t.initiated <==> n in t.succeeded || n in t.failed || Live(t, n)
    ensures Live(t, n) ==> n !in t.succeeded && n !in t.failed
  {
    hide IdOf;
    if Live(t, n) {
      assert SerialOf(t, IdOf(n)) == n;
    }
  }

  lemma PartsSize(a: set<nat>, b: set<nat>, c: set<nat>)
    requires a !! b && (a + b) !! c
    ensures |a + b + c| == |a| + |b| + |c|
  {
  }

  lemma AllAccounted(t: Tracker)
    requires TrackerOk(t, None)
    ensures t.initiated == t.succeeded + t.failed + LiveOnes(t) && (t.succeeded + t.failed) !! LiveOnes(t)
    ensures |t.initiated| == |t.succeeded| + |t.failed| + |t.active|
  {
    assert t.succeeded !! t.failed;
    LiveOnesSize(t);
    hide IdOf, Live, LiveOnes, HistoryOk, NumbersOk, CountsOk;
    forall n: nat
      ensures n in t.initiated <==> n in t.succeeded || n in t.failed || n in LiveOnes(t)
      ensures n in LiveOnes(t) ==> n !in t.succeeded && n !in t.failed
    {
      LiveOnesIff(t, n);
      LiveHistory(t, n);
    }
    ThreeParts(t.initiated, t.succeeded, t.failed, LiveOnes(t));
  }

  lemma ThreeParts(all: set<nat>, a: set<nat>, b: set<nat>, c: set<nat>)
    requires a !! b
    requires forall n: nat :: n in all <==> n in a || n in b || n in c
    requires forall n: nat :: n in c ==> n !in a && n !in b
    ensures all == a + b + c && (a + b) !! c && |all| == |a| + |b| + |c|
  {
    assert all == a + b + c;
    PartsSize(a, b, c);
  }

  lemma LiveOnesSize(t: Tracker)
    requires NumbersOk(t)
    ensures |LiveOnes(t)| == |t.active|
  {
    hide NumbersOk;
    ImageSize(t.active.Keys, t);
    assert LiveOnes(t) == set id | id in t.active.Keys :: SerialOf(t, id);
    assert |t.active| == |t.active.Keys|;
  }

  /** In some state of the run a correlated response of the n-th lookup carried peers. */
  ghost predicate SomeAnswerCarried(cfg: Config, ourId: NodeId, nextTx: Transaction, inputs: seq<Input>, n: nat)
  {
    exists k :: 0 <= k < |inputs| && n in CarriedBy(Run(Initial(nextTx), cfg, ourId, inputs[..k]), inputs[k])
  }

  lemma CarriedLater(cfg: Config, ourId: NodeId, nextTx: Transaction, front: seq<Input>, last: Input, n: nat)
    ensures SomeAnswerCarried(cfg, ourId, nextTx, front + [last], n)
            <==> SomeAnswerCarried(cfg, ourId, nextTx, front, n) || n in CarriedBy(Run(Initial(nextTx), cfg, ourId, front), last)
  {
    hide Run, CarriedBy;
    var all := front + [last];
    assert forall k | 0 <= k < |front| :: all[..k] == front[..k] && all[k] == front[k];
    assert all[..|front|] == front && all[|front|] == last;
  }

  lemma {:induction false} CarriedExactly(cfg: Config, ourId: NodeId, nextTx: Transaction, inputs: seq<Input>, n: nat)
    requires NoReuse(cfg, ourId, nextTx, inputs)
    ensures n in Run(Initial(nextTx), cfg, ourId, inputs).tracker.carried <==> SomeAnswerCarried(cfg, ourId, nextTx, inputs, n)
  {
    hide Fits, Step, NoReuse, Reuses, CarriedBy;
    if |inputs| > 0 {
      var front, last := inputs[..|inputs| - 1], inputs[|inputs| - 1];
      NoReuseFront(cfg, ourId, nextTx, inputs);
      CarriedExactly(cfg, ourId, nextTx, front, n);
      RunKeeps(cfg, ourId, nextTx, front);
      var s := Run(Initial(nextTx), cfg, ourId, front);
      StepKeeps(s, cfg, ourId, last);
      CarriedLater(cfg, ourId, nextTx, front, last, n);
      assert front + [last] == inputs;
    }
  }

  /** A finalised lookup counted as a success exactly when, somewhere in the run, a correlated get_peers response
      of that lookup carried peers. */
  lemma SuccessMeansPeers(cfg: Config, ourId: NodeId, nextTx: Transaction, inputs: seq<Input>, n: nat)
    requires NoReuse(cfg, ourId, nextTx, inputs)
    ensures var t := Run(Initial(nextTx), cfg, ourId, inputs).tracker;
            && (n in t.succeeded ==> SomeAnswerCarried(cfg, ourId, nextTx, inputs, n))
            && (n in t.failed ==> !SomeAnswerCarried(cfg, ourId, nextTx, inputs, n))
            && (SomeAnswerCarried(cfg, ourId, nextTx, inputs, n) ==> n in t.succeeded || n in LiveOnes(t))
  {
    hide Run, SomeAnswerCarried, IdOf, NoReuse;
    RunKeeps(cfg, ourId, nextTx, inputs);
    CarriedExactly(cfg, ourId, nextTx, inputs, n);
    AllAccounted(Run(Initial(nextTx), cfg, ourId, inputs).tracker);
  }
}
