/** The pending and retired tables and the discovery queue. */
module DhtTables {
  import opened NodeIds
  import opened Net
  import opened Seqs
  import opened Sums
  import opened DhtState

  /** No transaction is pending and retired at once; the pending table is within its limit; the discovery queue
      has no duplicates, is within its limit, never holds the zero hash, and agrees with its set. */
  ghost predicate TablesOk(s: State, cfg: Config)
  {
    && s.pending.Keys !! s.retired.Keys
    && |s.pending| <= cfg.maxPending
    && NoDup(s.queue) && |s.queue| <= cfg.maxDiscovery
    && (forall h | h in s.queue :: h in s.queued && h != ZERO_ID)
    && (forall h | h in s.queued :: h in s.queue)
  }

  /** Trying n numbers finds a free one unless all n from tx on are in use. */
  lemma {:induction false} FirstFreeMisses(tx: Transaction, used: set<Transaction>, tries: nat, k: nat)
    requires FirstFree(tx, used, tries).None? && k < tries
    ensures (tx + k) % TRANSACTIONS in used
    decreases tries
  {
    if k > 0 {
      FirstFreeMisses((tx + 1) % TRANSACTIONS, used, tries - 1, k - 1);
      WrapTwice(tx, k);
    }
  }

  lemma WrapTwice(tx: Transaction, k: nat)
    requires 0 < k
    ensures ((tx + 1) % TRANSACTIONS + (k - 1)) % TRANSACTIONS == (tx + k) % TRANSACTIONS
  {
    if tx + 1 == TRANSACTIONS {
      assert (tx + 1) % TRANSACTIONS == 0;
      assert tx + k == TRANSACTIONS + (k - 1);
    }
  }

  lemma StepsBetween(a: Transaction, n: Transaction) returns (k: nat)
    ensures k < TRANSACTIONS && (a + k) % TRANSACTIONS == n
  {
    if a <= n {
      k := n - a;
    } else {
      k := n + TRANSACTIONS - a;
      assert a + k == n + TRANSACTIONS;
    }
  }

  /** allocate_transaction fails exactly when the pending table is full or all 65536 numbers are in use. */
  lemma AllocateExact(s: State, cfg: Config)
    ensures Allocate(s, cfg).0.None? <==> |s.pending| >= cfg.maxPending || forall n: Transaction :: n in Used(s)
  {
    hide FirstFree, Used;
    AllocateFresh(s, cfg);
    FirstFreeFresh(s.nextTx, Used(s), TRANSACTIONS);
    if |s.pending| < cfg.maxPending && Allocate(s, cfg).0.None? {
      forall n: Transaction
        ensures n in Used(s)
      {
        var k := StepsBetween(s.nextTx, n);
        FirstFreeMisses(s.nextTx, Used(s), TRANSACTIONS, k);
      }
    }
  }

  lemma SendTables(s: State, cfg: Config, rpc: Rpc, now: int, delivered: bool)
    requires TablesOk(s, cfg)
    ensures TablesOk(SendRpc(s, cfg, rpc, now, delivered), cfg)
  {
    hide FirstFree;
    AllocateFresh(s, cfg);
    var tx := Allocate(s, cfg).0;
    if tx.Some? && delivered {
      KeysPlus(s.pending, tx.value, Pending(rpc, now + cfg.rpcTimeout));
    }
  }

  lemma {:induction false} SendAllTables(s: State, cfg: Config, rpcs: seq<Rpc>, now: int, delivered: seq<bool>)
    requires TablesOk(s, cfg)
    ensures TablesOk(SendAll(s, cfg, rpcs, now, delivered), cfg)
  {
    hide TablesOk, SendRpc;
    if |rpcs| > 0 {
      var last := |rpcs| - 1;
      SendAllTables(s, cfg, rpcs[..last], now, delivered);
      SendTables(SendAll(s, cfg, rpcs[..last], now, delivered), cfg, rpcs[last], now, Flag(delivered, last));
    }
  }

  lemma QueueTables(s: State, cfg: Config, hash: InfoHash)
    requires TablesOk(s, cfg)
    ensures TablesOk(QueueHash(s, cfg, hash), cfg)
  {
  }

  lemma {:induction false} QueueAllTables(s: State, cfg: Config, hashes: seq<InfoHash>)
    requires TablesOk(s, cfg)
    ensures TablesOk(QueueAll(s, cfg, hashes), cfg)
  {
    hide TablesOk, QueueHash;
    if |hashes| > 0 {
      QueueAllTables(s, cfg, hashes[..|hashes| - 1]);
      QueueTables(QueueAll(s, cfg, hashes[..|hashes| - 1]), cfg, hashes[|hashes| - 1]);
    }
  }

  lemma RetireTables(s: State, cfg: Config, tx: Transaction, until: int)
    requires TablesOk(s, cfg) && tx in s.pending
    ensures TablesOk(Retire(s, tx, until), cfg)
  {
    KeysMinus(s.pending, tx);
  }

  /** TablesOk does not look at the tracker, the counters or the history. */
  lemma SameTables(s: State, s': State, cfg: Config)
    requires TablesOk(s, cfg)
    requires s'.pending == s.pending && s'.queue == s.queue && s'.queued == s.queued && s'.retired == s.retired
    ensures TablesOk(s', cfg)
  {
  }

  lemma ExpireOneTables(s: State, cfg: Config, tx: Transaction, now: int)
    requires TablesOk(s, cfg)
    ensures TablesOk(ExpireOne(s, cfg, tx, now), cfg)
  {
    hide TablesOk, QueueHash, Retire, Complete;
    if tx in s.pending {
      var rpc := s.pending[tx].rpc;
      var s1 := Retire(s, tx, now + cfg.rpcTimeout);
      RetireTables(s, cfg, tx, now + cfg.rpcTimeout);
      var s2 := if rpc.isRealLookup && rpc.infoHash.Some? then QueueHash(s1, cfg, rpc.infoHash.value) else s1;
      if rpc.infoHash.Some? {
        QueueTables(s1, cfg, rpc.infoHash.value);
      }
      SameTables(s2, CompleteFor(s2, rpc.lookupId, false), cfg);
    }
  }

  lemma {:induction false} ExpireAllTables(s: State, cfg: Config, order: seq<Transaction>, now: int)
    requires TablesOk(s, cfg)
    ensures TablesOk(ExpireAll(s, cfg, order, now), cfg)
  {
    hide TablesOk, ExpireOne;
    if |order| > 0 {
      ExpireAllTables(s, cfg, order[..|order| - 1], now);
      ExpireOneTables(ExpireAll(s, cfg, order[..|order| - 1], now), cfg, order[|order| - 1], now);
    }
  }

  lemma DropTables(s: State, cfg: Config, now: int)
    requires TablesOk(s, cfg)
    ensures TablesOk(DropReusable(s, now), cfg)
  {
    assert StillRetired(s.retired, now).Keys <= s.retired.Keys;
  }

  lemma PopTables(s: State, cfg: Config)
    requires TablesOk(s, cfg) && s.queue != []
    ensures TablesOk(s.(queue := s.queue[1..], queued := s.queued - {s.queue[0]}), cfg)
  {
    var s' := s.(queue := s.queue[1..], queued := s.queued - {s.queue[0]});
    assert s.queue == [s.queue[0]] + s.queue[1..];
    forall h | h in s'.queue
      ensures h in s'.queued
    {
      var i :| 0 <= i < |s'.queue| && s'.queue[i] == h;
      assert s.queue[i + 1] == h;
    }
  }

  lemma GetPeersTables(s: State, cfg: Config, rpc: Rpc, m: Response, now: int, delivered: seq<bool>)
    requires TablesOk(s, cfg)
    ensures TablesOk(GetPeersAnswered(s, cfg, rpc, m, now, delivered), cfg)
  {
    hide TablesOk, QueueHash, SendAll, Complete;
    if rpc.infoHash.None? {
      SameTables(s, CompleteFor(s, rpc.lookupId, Peers(m) != []), cfg);
    } else {
      var hash := rpc.infoHash.value;
      var q := if Peers(m) != [] || rpc.isRealLookup then QueueHash(s, cfg, hash) else s;
      QueueTables(s, cfg, hash);
      if rpc.budget > 0 {
        SendAllTables(q, cfg, GetPeersChildren(rpc, hash, Take(Nodes(m), LOOKUP_CONTINUATION_FANOUT)), now, delivered);
      }
      var c := ContinueGetPeers(q, cfg, hash, Nodes(m), rpc, now, delivered);
      SameTables(c, CompleteFor(c, rpc.lookupId, Peers(m) != []), cfg);
    }
  }

  lemma ResponseTables(s: State, cfg: Config, m: Response, source: SocketAddr, now: int, delivered: seq<bool>)
    requires TablesOk(s, cfg)
    ensures TablesOk(HandleResponse(s, cfg, m, source, now, delivered), cfg)
  {
    hide TablesOk, GetPeersAnswered, SendAll, QueueAll, Retire, Complete;
    match Correlate(s.pending, m, source)
    case Unsolicited =>
    case UnexpectedSource =>
    case Malformed(tx) =>
      RetireTables(s, cfg, tx, now + cfg.rpcTimeout);
      var s1 := Retire(s, tx, now + cfg.rpcTimeout);
      SameTables(s1, CompleteFor(s1, s.pending[tx].rpc.lookupId, false), cfg);
    case Correlated(tx) =>
      var rpc := s.pending[tx].rpc;
      RetireTables(s, cfg, tx, now + cfg.rpcTimeout);
      var s1 := Retire(s, tx, now + cfg.rpcTimeout);
      match rpc.kind
      case Ping =>
      case FindNode =>
        if rpc.budget > 0 {
          SendAllTables(s1, cfg, FindNodeChildren(rpc, Take(Nodes(m), LOOKUP_CONTINUATION_FANOUT)), now, delivered);
        }
      case GetPeers => GetPeersTables(s1, cfg, rpc, m, now, delivered);
      case SampleInfohashes =>
        if m.samples.Some? {
          QueueAllTables(s1, cfg, m.samples.value);
        }
  }

  lemma BootstrapTables(s: State, cfg: Config, ourId: NodeId, addrs: seq<SocketAddr>, now: int, delivered: seq<bool>)
    requires TablesOk(s, cfg)
    ensures TablesOk(RunBootstrap(s, cfg, ourId, addrs, now, delivered), cfg)
  {
    hide TablesOk, SendAll;
    var s1 := s.(nextProbe := s.nextProbe + |addrs|);
    SameTables(s, s1, cfg);
    SendAllTables(s1, cfg, BootstrapRpcs(ourId, addrs, s.nextProbe), now, delivered);
  }

  lemma DiscoverTables(s: State, cfg: Config, ourId: NodeId, tick: Tick, now: int, delivered: seq<bool>)
    requires TablesOk(s, cfg)
    ensures TablesOk(Discover(s, cfg, ourId, tick, now, delivered), cfg)
  {
    hide TablesOk, ExpireAll, SendAll, QueueHash, RunBootstrap;
    DropTables(s, cfg, now);
    ExpireAllTables(DropReusable(s, now), cfg, tick.order, now);
    var s0 := ExpirePending(s, cfg, tick.order, now);
    var nodes := tick.nodes;
    if s0.queue != [] {
      PopTables(s0, cfg);
      var hash := s0.queue[0];
      var s1 := s0.(queue := s0.queue[1..], queued := s0.queued - {hash});
      if nodes == [] {
        QueueTables(s1, cfg, hash);
        BootstrapTables(QueueHash(s1, cfg, hash), cfg, ourId, tick.bootstrap, now, delivered);
      } else {
        var id := s1.tracker.nextId;
        var b := s1.(tracker := Begin(s1.tracker));
        SameTables(s1, b, cfg);
        SendAllTables(b, cfg, LookupRpcs(hash, nodes, Some(id), Lookup(s1.tracker.begun)), now, delivered);
        var s2 := SendAll(b, cfg, LookupRpcs(hash, nodes, Some(id), Lookup(s1.tracker.begun)), now, delivered);
        SameTables(s2, s2.(tracker := Started(s2.tracker, id)), cfg);
      }
    } else if nodes == [] {
      BootstrapTables(s0, cfg, ourId, tick.bootstrap, now, delivered);
    } else {
      var s1 := s0.(nextProbe := s0.nextProbe + 1);
      SameTables(s0, s1, cfg);
      SendAllTables(s1, cfg, LookupRpcs(tick.randomId, nodes, None, RandomLookup(s0.nextProbe)), now, delivered);
    }
  }

  lemma StepTables(s: State, cfg: Config, ourId: NodeId, input: Input)
    requires TablesOk(s, cfg)
    ensures TablesOk(Step(s, cfg, ourId, input), cfg)
  {
    hide TablesOk, HandleResponse, QueueAll, ExpireAll, Discover, SendAll, RunBootstrap, Complete, Retire;
    match input
    case Answer(m, source, now, delivered) => ResponseTables(s, cfg, m, source, now, delivered);
    case Error(id, source, now) =>
      if id.Ours? && id.tx in s.pending && s.pending[id.tx].rpc.addr == source {
        RetireTables(s, cfg, id.tx, now + cfg.rpcTimeout);
        var s1 := Retire(s, id.tx, now + cfg.rpcTimeout);
        SameTables(s1, CompleteFor(s1, s.pending[id.tx].rpc.lookupId, false), cfg);
      }
    case Observe(hashes) => QueueAllTables(s, cfg, hashes);
    case Refresh(order, now) =>
      DropTables(s, cfg, now);
      ExpireAllTables(DropReusable(s, now), cfg, order, now);
    case DiscoveryTick(tick, now, delivered) => DiscoverTables(s, cfg, ourId, tick, now, delivered);
    case SamplingTick(probes, now, delivered) =>
      var s1 := s.(nextProbe := s.nextProbe + |probes|);
      SameTables(s, s1, cfg);
      SendAllTables(s1, cfg, SampleRpcs(probes, s.nextProbe), now, delivered);
    case BootstrapAll(addrs, now, delivered) => BootstrapTables(s, cfg, ourId, addrs, now, delivered);
  }

  lemma {:induction false} RunTables(cfg: Config, ourId: NodeId, nextTx: Transaction, inputs: seq<Input>)
    ensures TablesOk(Run(Initial(nextTx), cfg, ourId, inputs), cfg)
  {
    hide Step;
    if |inputs| > 0 {
      RunTables(cfg, ourId, nextTx, inputs[..|inputs| - 1]);
      StepTables(Run(Initial(nextTx), cfg, ourId, inputs[..|inputs| - 1]), cfg, ourId, inputs[|inputs| - 1]);
    }
  }
}
