/** The state of the DHT engine and the effect of each handler on it, as functions. */
module DhtState {
  import opened NodeIds
  import opened Net
  import opened Seqs

  const LOOKUP_FANOUT: nat := 8
  const LOOKUP_CONTINUATION_FANOUT: nat := 4
  const FIRST_BUDGET: nat := 2
  const TRANSACTIONS: nat := 0x1_0000
  const LOOKUP_IDS: nat := 0x1_0000_0000_0000_0000

  type Transaction = tx: nat | tx < TRANSACTIONS
  type InfoHash = NodeId
  type LookupId = id: nat | id < LOOKUP_IDS

  datatype RpcMethod = Ping | FindNode | GetPeers | SampleInfohashes

  /** What an RPC descends from: a real lookup, a lookup of a random id, one bootstrap contact, one
      sampled node. The engine does not store it; the model does, to count RPCs by origin. */
  datatype Root = Lookup(n: nat) | RandomLookup(n: nat) | Bootstrap(n: nat) | Sample(n: nat)

  datatype Rpc = Rpc(addr: SocketAddr, nodeId: Option<NodeId>, kind: RpcMethod, target: NodeId,
                     infoHash: Option<InfoHash>, isRealLookup: bool, budget: nat,
                     lookupId: Option<LookupId>, root: Root)

  datatype Pending = Pending(rpc: Rpc, deadline: int)

  datatype Config = Config(maxPending: nat, maxDiscovery: nat, rpcTimeout: nat)

  // ------------------------------------------------------------ RealLookupTracker

  datatype Progress = Progress(outstanding: nat, peersFound: bool)

  /** The rest is history. Lookups are numbered as they begin; the lookup id is that number, wrapped. serials tells
      which lookup an active id stands for, and the sets which lookups were counted as initiated, had a response
      with peers, and were finalised either way. */
  datatype Tracker = Tracker(nextId: LookupId, active: map<LookupId, Progress>,
                             initiatedCount: nat, succeededCount: nat, failedCount: nat,
                             begun: nat, serials: map<LookupId, nat>,
                             initiated: set<nat>, carried: set<nat>, succeeded: set<nat>, failed: set<nat>)

  /** The lookup that id stands for. */
  function SerialOf(t: Tracker, id: LookupId): nat
  {
    if id in t.serials then t.serials[id] else 0
  }

  function Begin(t: Tracker): Tracker
  {
    t.(nextId := (t.nextId + 1) % LOOKUP_IDS, active := t.active[t.nextId := Progress(0, false)],
       begun := t.begun + 1, serials := t.serials[t.nextId := t.begun])
  }

  function Attach(t: Tracker, id: LookupId): Tracker
  {
    if id !in t.active then t
    else t.(active := t.active[id := t.active[id].(outstanding := t.active[id].outstanding + 1)])
  }

  function Started(t: Tracker, id: LookupId): Tracker
  {
    if id in t.active && t.active[id].outstanding > 0 then
      t.(initiatedCount := t.initiatedCount + 1, initiated := t.initiated + {SerialOf(t, id)})
    else
      t.(active := t.active - {id})
  }

  function Complete(t: Tracker, id: LookupId, foundPeers: bool): Tracker
  {
    if id !in t.active then t
    else
      var outstanding := if t.active[id].outstanding > 0 then t.active[id].outstanding - 1 else 0;
      var peersFound := t.active[id].peersFound || foundPeers;
      var carried := if foundPeers then t.carried + {SerialOf(t, id)} else t.carried;
      if outstanding > 0 then
        t.(active := t.active[id := Progress(outstanding, peersFound)], carried := carried)
      else if peersFound then
        t.(active := t.active - {id}, carried := carried,
           succeededCount := t.succeededCount + 1, succeeded := t.succeeded + {SerialOf(t, id)})
      else
        t.(active := t.active - {id}, carried := carried,
           failedCount := t.failedCount + 1, failed := t.failed + {SerialOf(t, id)})
  }

  // ------------------------------------------------------------ the crawler

  datatype State = State(pending: map<Transaction, Pending>, retired: map<Transaction, int>, tracker: Tracker,
                         queue: seq<InfoHash>, queued: set<InfoHash>, nextTx: Transaction,
                         nextProbe: nat, sent: map<Root, nat>)

  const INITIAL_TRACKER := Tracker(0, map[], 0, 0, 0, 0, map[], {}, {}, {}, {})

  function Initial(nextTx: Transaction): State
  {
    State(map[], map[], INITIAL_TRACKER, [], {}, nextTx, 0, map[])
  }

  // transactions

  /** The first transaction number at or after tx that is not in use, trying at most tries of them. */
  function FirstFree(tx: Transaction, used: set<Transaction>, tries: nat): Option<Transaction>
    decreases tries, used
  {
    if tries == 0 then None
    else if tx !in used then Some(tx)
    else FirstFree((tx + 1) % TRANSACTIONS, used, tries - 1)
  }

  function Used(s: State): set<Transaction>
  {
    s.pending.Keys + s.retired.Keys
  }

  /** allocate_transaction: the transaction, and the shared counter afterwards. */
  function Allocate(s: State, cfg: Config): (Option<Transaction>, Transaction)
  {
    if |s.pending| >= cfg.maxPending then (None, s.nextTx)
    else
      var tx := FirstFree(s.nextTx, Used(s), TRANSACTIONS);
      (tx, if tx.Some? then (tx.value + 1) % TRANSACTIONS else s.nextTx)
  }

  lemma {:induction false} FirstFreeFresh(tx: Transaction, used: set<Transaction>, tries: nat)
    ensures FirstFree(tx, used, tries).Some? ==> FirstFree(tx, used, tries).value !in used
    decreases tries
  {
    if tries > 0 && tx in used {
      FirstFreeFresh((tx + 1) % TRANSACTIONS, used, tries - 1);
    }
  }

  /** allocate_transaction never hands out a number that is pending or retired, nor exceeds the limit. */
  lemma AllocateFresh(s: State, cfg: Config)
    ensures var tx := Allocate(s, cfg).0;
            tx.Some? ==> tx.value !in s.pending && tx.value !in s.retired && |s.pending| < cfg.maxPending
  {
    FirstFreeFresh(s.nextTx, Used(s), TRANSACTIONS);
  }

  function SentBy(s: State, root: Root): nat
  {
    if root in s.sent then s.sent[root] else 0
  }

  /** send_rpc, given whether the socket accepts the datagram. */
  function SendRpc(s: State, cfg: Config, rpc: Rpc, now: int, delivered: bool): State
  {
    var (tx, nextTx) := Allocate(s, cfg);
    if tx.None? then s.(nextTx := nextTx)
    else if !delivered then s.(nextTx := nextTx)
    else
      s.(nextTx := nextTx,
         pending := s.pending[tx.value := Pending(rpc, now + cfg.rpcTimeout)],
         tracker := if rpc.lookupId.Some? then Attach(s.tracker, rpc.lookupId.value) else s.tracker,
         sent := s.sent[rpc.root := SentBy(s, rpc.root) + 1])
  }

  function Flag(flags: seq<bool>, i: nat): bool
  {
    i < |flags| && flags[i]
  }

  /** The sends of a loop, in order; delivered tells what the socket does with each. */
  function SendAll(s: State, cfg: Config, rpcs: seq<Rpc>, now: int, delivered: seq<bool>): State
  {
    if |rpcs| == 0 then s
    else
      var last := |rpcs| - 1;
      SendRpc(SendAll(s, cfg, rpcs[..last], now, delivered), cfg, rpcs[last], now, Flag(delivered, last))
  }

  // the discovery queue

  function QueueHash(s: State, cfg: Config, hash: InfoHash): State
  {
    if hash == ZERO_ID || hash in s.queued || |s.queue| >= cfg.maxDiscovery then s
    else s.(queue := s.queue + [hash], queued := s.queued + {hash})
  }

  function QueueAll(s: State, cfg: Config, hashes: seq<InfoHash>): State
  {
    if |hashes| == 0 then s
    else QueueHash(QueueAll(s, cfg, hashes[..|hashes| - 1]), cfg, hashes[|hashes| - 1])
  }

  // removal of a pending RPC

  function Retire(s: State, tx: Transaction, until: int): State
  {
    s.(pending := s.pending - {tx}, retired := s.retired[tx := until])
  }

  function CompleteFor(s: State, lookupId: Option<LookupId>, foundPeers: bool): State
  {
    if lookupId.None? then s else s.(tracker := Complete(s.tracker, lookupId.value, foundPeers))
  }

  function ExpireOne(s: State, cfg: Config, tx: Transaction, now: int): State
  {
    if tx !in s.pending then s
    else
      var rpc := s.pending[tx].rpc;
      var s1 := Retire(s, tx, now + cfg.rpcTimeout);
      var s2 := if rpc.isRealLookup && rpc.infoHash.Some? then QueueHash(s1, cfg, rpc.infoHash.value) else s1;
      CompleteFor(s2, rpc.lookupId, false)
  }

  function ExpireAll(s: State, cfg: Config, order: seq<Transaction>, now: int): State
  {
    if |order| == 0 then s
    else ExpireOne(ExpireAll(s, cfg, order[..|order| - 1], now), cfg, order[|order| - 1], now)
  }

  function StillRetired(retired: map<Transaction, int>, now: int): map<Transaction, int>
  {
    map tx | tx in retired && retired[tx] > now :: retired[tx]
  }

  function DropReusable(s: State, now: int): State
  {
    s.(retired := StillRetired(s.retired, now))
  }

  /** expire_pending; order is the order in which the hash map gave the expired transactions. */
  function ExpirePending(s: State, cfg: Config, order: seq<Transaction>, now: int): State
  {
    ExpireAll(DropReusable(s, now), cfg, order, now)
  }

  // responses

  /** The transaction bytes of an incoming message name one of ours only if there are two of them. */
  datatype IncomingId = Ours(tx: Transaction) | Foreign

  /** A decoded response: nodes and values when the fields have the right type, and what
      parse_sample_infohashes_response makes of the sample fields. */
  datatype Response = Response(id: IncomingId, nodeId: Option<NodeId>, nodes: Option<seq<Contact>>,
                               values: Option<seq<SocketAddr>>, sampleShape: bool, samples: Option<seq<InfoHash>>)

  predicate HasShape(m: Response, kind: RpcMethod)
  {
    m.nodeId.Some? &&
    match kind
    case Ping => true
    case FindNode => m.nodes.Some?
    case GetPeers => m.nodes.Some? || m.values.Some?
    case SampleInfohashes => m.sampleShape
  }

  datatype Correlation = Unsolicited | UnexpectedSource | Malformed(tx: Transaction) | Correlated(tx: Transaction)

  function Correlate(pending: map<Transaction, Pending>, m: Response, source: SocketAddr): Correlation
  {
    if m.id.Foreign? || m.id.tx !in pending then Unsolicited
    else
      var rpc := pending[m.id.tx].rpc;
      if rpc.addr != source then UnexpectedSource
      else if m.nodeId.None? then Malformed(m.id.tx)
      else if (rpc.nodeId.Some? && rpc.nodeId != m.nodeId) || !HasShape(m, rpc.kind) then Malformed(m.id.tx)
      else Correlated(m.id.tx)
  }

  function Nodes(m: Response): seq<Contact>
  {
    if m.nodes.Some? then m.nodes.value else []
  }

  function Peers(m: Response): seq<SocketAddr>
  {
    if m.values.Some? then m.values.value else []
  }

  function FindNodeChild(parent: Rpc, node: Contact): Rpc
    requires parent.budget > 0
  {
    Rpc(node.addr, Some(node.id), FindNode, parent.target, None, false, parent.budget - 1, None, parent.root)
  }

  function GetPeersChild(parent: Rpc, hash: InfoHash, node: Contact): Rpc
    requires parent.budget > 0
  {
    Rpc(node.addr, Some(node.id), GetPeers, hash, Some(hash), parent.isRealLookup, parent.budget - 1,
        parent.lookupId, parent.root)
  }

  function FindNodeChildren(parent: Rpc, nodes: seq<Contact>): seq<Rpc>
    requires parent.budget > 0
  {
    seq(|nodes|, i requires 0 <= i < |nodes| => FindNodeChild(parent, nodes[i]))
  }

  function GetPeersChildren(parent: Rpc, hash: InfoHash, nodes: seq<Contact>): seq<Rpc>
    requires parent.budget > 0
  {
    seq(|nodes|, i requires 0 <= i < |nodes| => GetPeersChild(parent, hash, nodes[i]))
  }

  function ContinueFindNode(s: State, cfg: Config, nodes: seq<Contact>, parent: Rpc, now: int, delivered: seq<bool>): State
  {
    if parent.budget == 0 then s
    else SendAll(s, cfg, FindNodeChildren(parent, Take(nodes, LOOKUP_CONTINUATION_FANOUT)), now, delivered)
  }

  function ContinueGetPeers(s: State, cfg: Config, hash: InfoHash, nodes: seq<Contact>, parent: Rpc, now: int,
                            delivered: seq<bool>): State
  {
    if parent.budget == 0 then s
    else SendAll(s, cfg, GetPeersChildren(parent, hash, Take(nodes, LOOKUP_CONTINUATION_FANOUT)), now, delivered)
  }

  /** The GetPeers arm of handle_response, after correlation. */
  function GetPeersAnswered(s: State, cfg: Config, rpc: Rpc, m: Response, now: int, delivered: seq<bool>): State
  {
    var hasPeers := Peers(m) != [];
    var s1 :=
      if rpc.infoHash.None? then s
      else
        var hash := rpc.infoHash.value;
        var queued := if hasPeers || rpc.isRealLookup then QueueHash(s, cfg, hash) else s;
        ContinueGetPeers(queued, cfg, hash, Nodes(m), rpc, now, delivered);
    CompleteFor(s1, rpc.lookupId, hasPeers)
  }

  function Answered(s: State, cfg: Config, rpc: Rpc, m: Response, now: int, delivered: seq<bool>): State
  {
    match rpc.kind
    case Ping => s
    case FindNode => ContinueFindNode(s, cfg, Nodes(m), rpc, now, delivered)
    case GetPeers => GetPeersAnswered(s, cfg, rpc, m, now, delivered)
    case SampleInfohashes => if m.samples.None? then s else QueueAll(s, cfg, m.samples.value)
  }

  function HandleResponse(s: State, cfg: Config, m: Response, source: SocketAddr, now: int, delivered: seq<bool>): State
  {
    match Correlate(s.pending, m, source)
    case Unsolicited => s
    case UnexpectedSource => s
    case Malformed(tx) =>
      CompleteFor(Retire(s, tx, now + cfg.rpcTimeout), s.pending[tx].rpc.lookupId, false)
    case Correlated(tx) =>
      Answered(Retire(s, tx, now + cfg.rpcTimeout), cfg, s.pending[tx].rpc, m, now, delivered)
  }

  function HandleError(s: State, cfg: Config, id: IncomingId, source: SocketAddr, now: int): State
  {
    if id.Foreign? || id.tx !in s.pending || s.pending[id.tx].rpc.addr != source then s
    else CompleteFor(Retire(s, id.tx, now + cfg.rpcTimeout), s.pending[id.tx].rpc.lookupId, false)
  }

  // timers

  function BootstrapRpc(ourId: NodeId, addr: SocketAddr, n: nat): Rpc
  {
    Rpc(addr, None, FindNode, ourId, None, false, FIRST_BUDGET, None, Bootstrap(n))
  }

  function BootstrapRpcs(ourId: NodeId, addrs: seq<SocketAddr>, n: nat): seq<Rpc>
  {
    seq(|addrs|, i requires 0 <= i < |addrs| => BootstrapRpc(ourId, addrs[i], n + i))
  }

  function RunBootstrap(s: State, cfg: Config, ourId: NodeId, addrs: seq<SocketAddr>, now: int, delivered: seq<bool>): State
  {
    SendAll(s.(nextProbe := s.nextProbe + |addrs|), cfg, BootstrapRpcs(ourId, addrs, s.nextProbe), now, delivered)
  }

  function LookupRpc(hash: InfoHash, node: Contact, lookupId: Option<LookupId>, root: Root): Rpc
  {
    Rpc(node.addr, Some(node.id), GetPeers, hash, Some(hash), lookupId.Some?, FIRST_BUDGET, lookupId, root)
  }

  function LookupRpcs(hash: InfoHash, nodes: seq<Contact>, lookupId: Option<LookupId>, root: Root): seq<Rpc>
  {
    seq(|nodes|, i requires 0 <= i < |nodes| => LookupRpc(hash, nodes[i], lookupId, root))
  }

  function StartReal(s: State, cfg: Config, hash: InfoHash, nodes: seq<Contact>, now: int, delivered: seq<bool>): State
  {
    var id := s.tracker.nextId;
    var s1 := SendAll(s.(tracker := Begin(s.tracker)), cfg, LookupRpcs(hash, nodes, Some(id), Lookup(s.tracker.begun)), now,
                      delivered);
    s1.(tracker := Started(s1.tracker, id))
  }

  function StartRandom(s: State, cfg: Config, hash: InfoHash, nodes: seq<Contact>, now: int, delivered: seq<bool>): State
  {
    SendAll(s.(nextProbe := s.nextProbe + 1), cfg,
            LookupRpcs(hash, nodes, None, RandomLookup(s.nextProbe)), now, delivered)
  }

  /** A discovery tick that begins a lookup under an id that is still in use: the 64-bit id has wrapped and met a
      lookup that is still active. */
  predicate Reuses(s: State, cfg: Config, input: Input)
  {
    input.DiscoveryTick? && input.tick.nodes != []
    && var s0 := ExpirePending(s, cfg, input.tick.order, input.now);
       s0.queue != [] && s0.tracker.nextId in s0.tracker.active
  }

  /** The contacts the routing table offers for a lookup: its closest live ones and, if these are fewer than
      LOOKUP_FANOUT, its closest candidates, as many as are missing. */
  type Offered = nodes: seq<Contact> | |nodes| <= LOOKUP_FANOUT

  /** What a discovery tick meets: the expired transactions in map order, the contacts the routing table
      offers, a random id, and the resolved bootstrap addresses. */
  datatype Tick = Tick(order: seq<Transaction>, nodes: Offered, randomId: NodeId, bootstrap: seq<SocketAddr>)

  function Discover(s: State, cfg: Config, ourId: NodeId, tick: Tick, now: int, delivered: seq<bool>): State
  {
    var s0 := ExpirePending(s, cfg, tick.order, now);
    var nodes := tick.nodes;
    if s0.queue != [] then
      var hash := s0.queue[0];
      var s1 := s0.(queue := s0.queue[1..], queued := s0.queued - {hash});
      if nodes == [] then RunBootstrap(QueueHash(s1, cfg, hash), cfg, ourId, tick.bootstrap, now, delivered)
      else StartReal(s1, cfg, hash, nodes, now, delivered)
    else if nodes == [] then RunBootstrap(s0, cfg, ourId, tick.bootstrap, now, delivered)
    else StartRandom(s0, cfg, tick.randomId, nodes, now, delivered)
  }

  function SampleRpc(node: Contact, target: NodeId, n: nat): Rpc
  {
    Rpc(node.addr, Some(node.id), SampleInfohashes, target, None, false, 0, None, Sample(n))
  }

  function SampleRpcs(probes: seq<(Contact, NodeId)>, n: nat): seq<Rpc>
  {
    seq(|probes|, i requires 0 <= i < |probes| => SampleRpc(probes[i].0, probes[i].1, n + i))
  }

  /** sample_random_nodes, given the eligible nodes it picked and the random target of each query. */
  function RunSampling(s: State, cfg: Config, probes: seq<(Contact, NodeId)>, now: int, delivered: seq<bool>): State
  {
    SendAll(s.(nextProbe := s.nextProbe + |probes|), cfg, SampleRpcs(probes, s.nextProbe), now, delivered)
  }

  // ------------------------------------------------------------ runs

  datatype Input =
    | Answer(message: Response, source: SocketAddr, now: int, delivered: seq<bool>)
    | Error(id: IncomingId, source: SocketAddr, now: int)
    | Observe(hashes: seq<InfoHash>)
    | Refresh(order: seq<Transaction>, now: int)
    | DiscoveryTick(tick: Tick, now: int, delivered: seq<bool>)
    | SamplingTick(probes: seq<(Contact, NodeId)>, now: int, delivered: seq<bool>)
    | BootstrapAll(addrs: seq<SocketAddr>, now: int, delivered: seq<bool>)

  function Step(s: State, cfg: Config, ourId: NodeId, input: Input): State
  {
    match input
    case Answer(message, source, now, delivered) => HandleResponse(s, cfg, message, source, now, delivered)
    case Error(id, source, now) => HandleError(s, cfg, id, source, now)
    case Observe(hashes) => QueueAll(s, cfg, hashes)
    case Refresh(order, now) => ExpirePending(s, cfg, order, now)
    case DiscoveryTick(tick, now, delivered) => Discover(s, cfg, ourId, tick, now, delivered)
    case SamplingTick(probes, now, delivered) => RunSampling(s, cfg, probes, now, delivered)
    case BootstrapAll(addrs, now, delivered) => RunBootstrap(s, cfg, ourId, addrs, now, delivered)
  }

  function Run(s: State, cfg: Config, ourId: NodeId, inputs: seq<Input>): State
  {
    if |inputs| == 0 then s
    else Step(Run(s, cfg, ourId, inputs[..|inputs| - 1]), cfg, ourId, inputs[|inputs| - 1])
  }
}
