/** The DHT engine as objects with mutable tables; each handler has the effect its function gives. */
module DhtEngine {
  import opened NodeIds
  import opened Net
  import opened Seqs
  import opened DhtState
  import DhtEffects

  /** RealLookupTracker with the three counters it drives; the rest is history. */
  class RealLookupTracker {
    var nextId: LookupId
    var active: map<LookupId, Progress>
    var initiatedCount: nat
    var succeededCount: nat
    var failedCount: nat
    /** Model only: the number of the next lookup, which names the origin of its RPCs. */
    var begun: nat
    ghost var serials: map<LookupId, nat>
    ghost var initiated: set<nat>
    ghost var carried: set<nat>
    ghost var succeeded: set<nat>
    ghost var failed: set<nat>

    ghost function View(): Tracker
      reads this
    {
      Tracker(nextId, active, initiatedCount, succeededCount, failedCount, begun, serials, initiated, carried, succeeded, failed)
    }

    constructor ()
      ensures View() == INITIAL_TRACKER
    {
      nextId, active, initiatedCount, succeededCount, failedCount := 0, map[], 0, 0, 0;
      begun, serials, initiated, carried, succeeded, failed := 0, map[], {}, {}, {}, {};
    }

    method BeginLookup() returns (id: LookupId)
      modifies this
      ensures id == old(nextId) && View() == Begin(old(View()))
    {
      id := nextId;
      nextId := (nextId + 1) % LOOKUP_IDS;
      active := active[id := Progress(0, false)];
      serials := serials[id := begun];
      begun := begun + 1;
    }

    method AttachRpc(id: LookupId)
      modifies this
      ensures View() == Attach(old(View()), id)
    {
      if id in active {
        active := active[id := active[id].(outstanding := active[id].outstanding + 1)];
      }
    }

    method Respond(id: LookupId, foundPeers: bool)
      modifies this
      ensures View() == Complete(old(View()), id, foundPeers)
    {
      Finish(id, foundPeers);
    }

    method Timeout(id: LookupId)
      modifies this
      ensures View() == Complete(old(View()), id, false)
    {
      Finish(id, false);
    }

    method Failure(id: LookupId)
      modifies this
      ensures View() == Complete(old(View()), id, false)
    {
      Finish(id, false);
    }

    method CountStarted(id: LookupId)
      modifies this
      ensures View() == Started(old(View()), id)
    {
      var begun := id in active && active[id].outstanding > 0;
      if begun {
        initiatedCount := initiatedCount + 1;
        initiated := initiated + {SerialOf(View(), id)};
      } else {
        active := active - {id};
      }
    }

    /** complete */
    method Finish(id: LookupId, foundPeers: bool)
      modifies this
      ensures View() == Complete(old(View()), id, foundPeers)
    {
      if id !in active {
        return;
      }
      var progress := active[id];
      progress := progress.(outstanding := if progress.outstanding > 0 then progress.outstanding - 1 else 0);
      progress := progress.(peersFound := progress.peersFound || foundPeers);
      active := active[id := progress];
      if foundPeers {
        carried := carried + {SerialOf(View(), id)};
      }
      if progress.outstanding > 0 {
        return;
      }
      active := active - {id};
      assert active == old(active) - {id};
      if progress.peersFound {
        succeededCount := succeededCount + 1;
        succeeded := succeeded + {SerialOf(View(), id)};
      } else {
        failedCount := failedCount + 1;
        failed := failed + {SerialOf(View(), id)};
      }
    }
  }

  lemma Wrapped(start: Transaction, i: nat)
    ensures i == 0 ==> (start + i) % TRANSACTIONS == start
    ensures ((start + i) % TRANSACTIONS + 1) % TRANSACTIONS == (start + i + 1) % TRANSACTIONS
    ensures i + 1 == TRANSACTIONS ==> (start + i + 1) % TRANSACTIONS == start
  {
    if i + 1 == TRANSACTIONS {
      assert start + i + 1 == start + TRANSACTIONS;
    }
  }

  lemma FirstFreeStep(tx: Transaction, used: set<Transaction>, tries: nat)
    requires tries > 0
    ensures FirstFree(tx, used, tries) == if tx !in used then Some(tx) else FirstFree((tx + 1) % TRANSACTIONS, used, tries - 1)
  {
  }

  lemma NoneTried(tx: Transaction, used: set<Transaction>)
    ensures FirstFree(tx, used, 0) == None
  {
  }

  /** The search of allocate_transaction: numbers from the shared counter, until one is in neither table. */
  method NextFree(start: Transaction, pending: map<Transaction, Pending>, retired: map<Transaction, int>)
    returns (tx: Option<Transaction>, next: Transaction)
    ensures tx == FirstFree(start, pending.Keys + retired.Keys, TRANSACTIONS)
    ensures next == if tx.Some? then (tx.value + 1) % TRANSACTIONS else start
  {
    hide FirstFree;
    ghost var used := pending.Keys + retired.Keys;
    next := start;
    Wrapped(start, 0);
    var i := 0;
    while i < TRANSACTIONS
      invariant 0 <= i <= TRANSACTIONS && next == (start + i) % TRANSACTIONS
      invariant FirstFree(start, used, TRANSACTIONS) == FirstFree(next, used, TRANSACTIONS - i)
    {
      var candidate := next;
      FirstFreeStep(candidate, used, TRANSACTIONS - i);
      Wrapped(start, i);
      next := (next + 1) % TRANSACTIONS;
      if candidate !in pending && candidate !in retired {
        return Some(candidate), next;
      }
      i := i + 1;
    }
    NoneTried(next, used);
    tx := None;
  }

  lemma PutTake<K, V>(m: map<K, V>, k: K, v: V)
    requires k !in m
    ensures m[k := v] - {k} == m
  {
  }

  class DhtCrawler {
    const cfg: Config
    const ourId: NodeId
    const lookups: RealLookupTracker
    var pendingRpcs: map<Transaction, Pending>
    var retired: map<Transaction, int>
    var discoveryQueue: seq<InfoHash>
    var discoverySet: set<InfoHash>
    var nextTx: Transaction
    /** Model only: the numbers of origins and the RPCs sent for each. */
    var nextProbe: nat
    var sent: map<Root, nat>

    ghost function View(): State
      reads this, lookups
    {
      State(pendingRpcs, retired, lookups.View(), discoveryQueue, discoverySet, nextTx, nextProbe, sent)
    }

    constructor (cfg: Config, ourId: NodeId, nextTx: Transaction)
      ensures View() == Initial(nextTx) && this.cfg == cfg && this.ourId == ourId && fresh(lookups)
    {
      this.cfg, this.ourId, this.nextTx := cfg, ourId, nextTx;
      lookups := new RealLookupTracker();
      pendingRpcs, retired, discoveryQueue, discoverySet, nextProbe, sent := map[], map[], [], {}, 0, map[];
    }

    /** allocate_transaction: nothing when too many RPCs are pending. */
    method AllocateTransaction() returns (tx: Option<Transaction>)
      modifies `nextTx
      ensures (tx, nextTx) == Allocate(old(View()), cfg)
    {
      if |pendingRpcs| >= cfg.maxPending {
        return None;
      }
      var found, next := NextFree(nextTx, pendingRpcs, retired);
      nextTx := next;
      tx := found;
    }

    /** send_rpc; delivered is what the socket does with the datagram. */
    method Send(rpc: Rpc, now: int, delivered: bool) returns (ok: bool)
      modifies this, lookups
      ensures View() == SendRpc(old(View()), cfg, rpc, now, delivered)
      ensures ok <==> delivered && Allocate(old(View()), cfg).0.Some?
    {
      hide FirstFree, Allocate, Attach, Used;
      AllocateFresh(View(), cfg);
      var tx := AllocateTransaction();
      if tx.None? {
        return false;
      }
      PutTake(pendingRpcs, tx.value, Pending(rpc, now + cfg.rpcTimeout));
      pendingRpcs := pendingRpcs[tx.value := Pending(rpc, now + cfg.rpcTimeout)];
      if !delivered {
        pendingRpcs := pendingRpcs - {tx.value};
        return false;
      }
      Sent(rpc);
      return true;
    }

    /** What follows a delivered datagram: it is counted for its origin and attached to its lookup. */
    method Sent(rpc: Rpc)
      modifies `sent, lookups
      ensures View() == old(View()).(tracker := if rpc.lookupId.Some? then Attach(old(View()).tracker, rpc.lookupId.value)
                                                else old(View()).tracker,
                                     sent := old(View()).sent[rpc.root := SentBy(old(View()), rpc.root) + 1])
    {
      hide Attach;
      sent := sent[rpc.root := (if rpc.root in sent then sent[rpc.root] else 0) + 1];
      if rpc.lookupId.Some? {
        lookups.AttachRpc(rpc.lookupId.value);
      }
    }

    method Enqueue(hash: InfoHash)
      modifies `discoveryQueue, `discoverySet
      ensures View() == QueueHash(old(View()), cfg, hash)
    {
      if hash == ZERO_ID || hash in discoverySet || |discoveryQueue| >= cfg.maxDiscovery {
        return;
      }
      discoveryQueue := discoveryQueue + [hash];
      discoverySet := discoverySet + {hash};
    }

    method EnqueueAll(hashes: seq<InfoHash>)
      modifies `discoveryQueue, `discoverySet
      ensures View() == QueueAll(old(View()), cfg, hashes)
    {
      hide QueueHash;
      var i := 0;
      while i < |hashes|
        invariant 0 <= i <= |hashes| && View() == QueueAll(old(View()), cfg, hashes[..i])
      {
        assert hashes[..i + 1][..i] == hashes[..i];
        Enqueue(hashes[i]);
        i := i + 1;
      }
      assert hashes[..|hashes|] == hashes;
    }

    /** One expired transaction. */
    method Expire(tx: Transaction, now: int)
      modifies this, lookups
      ensures View() == ExpireOne(old(View()), cfg, tx, now)
    {
      if tx in pendingRpcs {
        var rpc := pendingRpcs[tx].rpc;
        pendingRpcs := pendingRpcs - {tx};
        retired := retired[tx := now + cfg.rpcTimeout];
        if rpc.isRealLookup {
          if rpc.infoHash.Some? {
            Enqueue(rpc.infoHash.value);
          }
        }
        if rpc.lookupId.Some? {
          lookups.Timeout(rpc.lookupId.value);
        }
      }
    }

    /** expire_pending; order is the order in which the expired transactions come out of the map. */
    method ExpirePendingRpcs(now: int) returns (ghost order: seq<Transaction>)
      modifies this, lookups
      ensures View() == ExpirePending(old(View()), cfg, order, now)
      ensures NoDup(order)
      ensures forall tx :: tx in order <==> tx in old(pendingRpcs) && old(pendingRpcs)[tx].deadline <= now
    {
      hide ExpireOne;
      retired := map tx | tx in retired && retired[tx] > now :: retired[tx];
      assert retired == StillRetired(old(retired), now);
      var todo := set tx | tx in pendingRpcs && pendingRpcs[tx].deadline <= now;
      order := [];
      while todo != {}
        invariant View() == ExpireAll(DropReusable(old(View()), now), cfg, order, now)
        invariant NoDup(order) && forall tx :: tx in order ==> tx !in todo
        invariant forall tx :: tx in order || tx in todo <==> tx in old(pendingRpcs) && old(pendingRpcs)[tx].deadline <= now
        decreases |todo|
      {
        var tx :| tx in todo;
        Expire(tx, now);
        assert (order + [tx])[..|order|] == order;
        order := order + [tx];
        todo := todo - {tx};
      }
    }

    method FinishFor(lookupId: Option<LookupId>, foundPeers: bool)
      modifies lookups
      ensures View() == CompleteFor(old(View()), lookupId, foundPeers)
    {
      if lookupId.Some? {
        lookups.Respond(lookupId.value, foundPeers);
      }
    }

    method RetireTransaction(tx: Transaction, now: int)
      modifies `pendingRpcs, `retired
      ensures View() == Retire(old(View()), tx, now + cfg.rpcTimeout)
    {
      pendingRpcs := pendingRpcs - {tx};
      retired := retired[tx := now + cfg.rpcTimeout];
    }

    method ContinueFind(nodes: seq<Contact>, parent: Rpc, now: int, delivered: seq<bool>)
      modifies this, lookups
      ensures View() == ContinueFindNode(old(View()), cfg, nodes, parent, now, delivered)
    {
      hide SendRpc;
      if parent.budget == 0 {
        return;
      }
      var some := Take(nodes, LOOKUP_CONTINUATION_FANOUT);
      ghost var rpcs := FindNodeChildren(parent, some);
      var i := 0;
      while i < |some|
        invariant 0 <= i <= |some| && View() == SendAll(old(View()), cfg, rpcs[..i], now, delivered)
      {
        assert rpcs[..i + 1][..i] == rpcs[..i];
        var _ := Send(FindNodeChild(parent, some[i]), now, Flag(delivered, i));
        i := i + 1;
      }
      assert rpcs[..|rpcs|] == rpcs;
    }

    method ContinueLookup(hash: InfoHash, nodes: seq<Contact>, parent: Rpc, now: int, delivered: seq<bool>)
      modifies this, lookups
      ensures View() == ContinueGetPeers(old(View()), cfg, hash, nodes, parent, now, delivered)
    {
      hide SendRpc;
      if parent.budget == 0 {
        return;
      }
      var some := Take(nodes, LOOKUP_CONTINUATION_FANOUT);
      ghost var rpcs := GetPeersChildren(parent, hash, some);
      var i := 0;
      while i < |some|
        invariant 0 <= i <= |some| && View() == SendAll(old(View()), cfg, rpcs[..i], now, delivered)
      {
        assert rpcs[..i + 1][..i] == rpcs[..i];
        var _ := Send(GetPeersChild(parent, hash, some[i]), now, Flag(delivered, i));
        i := i + 1;
      }
      assert rpcs[..|rpcs|] == rpcs;
    }

    /** handle_response, the tables and the tracker only. */
    method OnResponse(m: Response, source: SocketAddr, now: int, delivered: seq<bool>)
      modifies this, lookups
      ensures View() == HandleResponse(old(View()), cfg, m, source, now, delivered)
      ensures !DhtEffects.Addressed(old(View()), m.id, source) ==> View() == old(View())
    {
      DhtEffects.ResponseRefused(View(), cfg, m, source, now, delivered);
      hide ContinueFindNode, ContinueGetPeers, QueueHash, QueueAll, Complete, SendRpc;
      match Correlate(pendingRpcs, m, source) {
        case Unsolicited =>
        case UnexpectedSource =>
        case Malformed(tx) =>
          var lookupId := pendingRpcs[tx].rpc.lookupId;
          RetireTransaction(tx, now);
          FinishFor(lookupId, false);
        case Correlated(tx) =>
          var rpc := pendingRpcs[tx].rpc;
          RetireTransaction(tx, now);
          match rpc.kind {
            case Ping =>
            case FindNode =>
              ContinueFind(Nodes(m), rpc, now, delivered);
            case GetPeers =>
              OnPeers(rpc, m, now, delivered);
            case SampleInfohashes =>
              if m.samples.Some? {
                EnqueueAll(m.samples.value);
              }
          }
      }
    }

    /** The get_peers arm of handle_response. */
    method OnPeers(rpc: Rpc, m: Response, now: int, delivered: seq<bool>)
      modifies this, lookups
      ensures View() == GetPeersAnswered(old(View()), cfg, rpc, m, now, delivered)
    {
      hide ContinueGetPeers, QueueHash, Complete;
      var hasPeers := Peers(m) != [];
      if rpc.infoHash.Some? {
        var hash := rpc.infoHash.value;
        if hasPeers || rpc.isRealLookup {
          Enqueue(hash);
        }
        ContinueLookup(hash, Nodes(m), rpc, now, delivered);
      }
      FinishFor(rpc.lookupId, hasPeers);
    }

    /** handle_error */
    method OnError(id: IncomingId, source: SocketAddr, now: int)
      modifies this, lookups
      ensures View() == HandleError(old(View()), cfg, id, source, now)
      ensures !DhtEffects.Addressed(old(View()), id, source) ==> View() == old(View())
    {
      DhtEffects.ErrorExact(View(), cfg, id, source, now);
      hide Complete;
      if id.Foreign? || id.tx !in pendingRpcs {
        return;
      }
      var rpc := pendingRpcs[id.tx].rpc;
      if rpc.addr != source {
        return;
      }
      RetireTransaction(id.tx, now);
      FinishFor(rpc.lookupId, false);
    }

    method BootstrapFrom(addrs: seq<SocketAddr>, now: int, delivered: seq<bool>)
      modifies this, lookups
      ensures View() == RunBootstrap(old(View()), cfg, ourId, addrs, now, delivered)
    {
      hide SendRpc;
      var first := nextProbe;
      nextProbe := nextProbe + |addrs|;
      ghost var begin, rpcs := View(), BootstrapRpcs(ourId, addrs, first);
      var i := 0;
      while i < |addrs|
        invariant 0 <= i <= |addrs| && View() == SendAll(begin, cfg, rpcs[..i], now, delivered)
      {
        assert rpcs[..i + 1][..i] == rpcs[..i];
        var _ := Send(BootstrapRpc(ourId, addrs[i], first + i), now, Flag(delivered, i));
        i := i + 1;
      }
      assert rpcs[..|rpcs|] == rpcs;
    }

    method LookUp(hash: InfoHash, nodes: seq<Contact>, lookupId: Option<LookupId>, root: Root, now: int, delivered: seq<bool>)
      modifies this, lookups
      ensures View() == SendAll(old(View()), cfg, LookupRpcs(hash, nodes, lookupId, root), now, delivered)
    {
      hide SendRpc;
      ghost var rpcs := LookupRpcs(hash, nodes, lookupId, root);
      var i := 0;
      while i < |nodes|
        invariant 0 <= i <= |nodes| && View() == SendAll(old(View()), cfg, rpcs[..i], now, delivered)
      {
        assert rpcs[..i + 1][..i] == rpcs[..i];
        var _ := Send(LookupRpc(hash, nodes[i], lookupId, root), now, Flag(delivered, i));
        i := i + 1;
      }
      assert rpcs[..|rpcs|] == rpcs;
    }

    /** The part of discover_peers that begins a real lookup, sends and counts it. */
    method LookUpReal(hash: InfoHash, nodes: seq<Contact>, now: int, delivered: seq<bool>)
      modifies this, lookups
      ensures View() == StartReal(old(View()), cfg, hash, nodes, now, delivered)
    {
      hide SendAll, Started;
      var id := lookups.BeginLookup();
      LookUp(hash, nodes, Some(id), Lookup(lookups.begun - 1), now, delivered);
      lookups.CountStarted(id);
    }

    /** discover_peers; the routing table's answer, a random id and the resolved bootstrap nodes are inputs. */
    method DiscoverPeers(nodes: Offered, randomId: NodeId, bootstrap: seq<SocketAddr>, now: int, delivered: seq<bool>)
      returns (ghost order: seq<Transaction>)
      modifies this, lookups
      ensures View() == Discover(old(View()), cfg, ourId, Tick(order, nodes, randomId, bootstrap), now, delivered)
      ensures forall tx :: tx in order <==> tx in old(pendingRpcs) && old(pendingRpcs)[tx].deadline <= now
    {
      hide SendAll, ExpirePending, QueueHash, RunBootstrap, StartReal;
      order := ExpirePendingRpcs(now);
      var isReal := discoveryQueue != [];
      var hash := randomId;
      if isReal {
        hash := discoveryQueue[0];
        discoveryQueue := discoveryQueue[1..];
        discoverySet := discoverySet - {hash};
      }
      if nodes == [] {
        if isReal {
          Enqueue(hash);
        }
        BootstrapFrom(bootstrap, now, delivered);
        return;
      }
      if isReal {
        LookUpReal(hash, nodes, now, delivered);
      } else {
        nextProbe := nextProbe + 1;
        LookUp(hash, nodes, None, RandomLookup(nextProbe - 1), now, delivered);
      }
    }

    /** sample_random_nodes, given the eligible nodes it picked and their random targets. */
    method SampleNodes(probes: seq<(Contact, NodeId)>, now: int, delivered: seq<bool>)
      modifies this, lookups
      ensures View() == RunSampling(old(View()), cfg, probes, now, delivered)
    {
      hide SendRpc;
      var first := nextProbe;
      nextProbe := nextProbe + |probes|;
      ghost var begin, rpcs := View(), SampleRpcs(probes, first);
      var i := 0;
      while i < |probes|
        invariant 0 <= i <= |probes| && View() == SendAll(begin, cfg, rpcs[..i], now, delivered)
      {
        assert rpcs[..i + 1][..i] == rpcs[..i];
        var _ := Send(SampleRpc(probes[i].0, probes[i].1, first + i), now, Flag(delivered, i));
        i := i + 1;
      }
      assert rpcs[..|rpcs|] == rpcs;
    }
  }
}
