/** Continuation budgets: how many RPCs one lookup or one bootstrap contact can cause. */
module DhtBudget {
  import opened NodeIds
  import opened Net
  import opened Seqs
  import opened Sums
  import opened DhtState

  /** The RPCs an RPC with this budget can cause, itself included. */
  function Weight(budget: nat): nat
  {
    if budget == 0 then 1 else 1 + LOOKUP_CONTINUATION_FANOUT * Weight(budget - 1)
  }

  ghost function WeightOf(root: Root): Pending -> int
  {
    (p: Pending) => if p.rpc.root == root then Weight(p.rpc.budget) else 0
  }

  ghost function LaterOf(root: Root): Pending -> int
  {
    (p: Pending) => if p.rpc.root == root then Weight(p.rpc.budget) - 1 else 0
  }

  /** The weight of everything pending that descends from root. */
  ghost function PendingWeight(s: State, root: Root): int
  {
    Sum(s.pending, WeightOf(root))
  }

  /** RPCs already sent for root plus those its pending RPCs can still cause. */
  ghost function Total(s: State, root: Root): int
  {
    SentBy(s, root) + Sum(s.pending, LaterOf(root))
  }

  /** The most RPCs any one origin causes. */
  function Cap(root: Root): nat
  {
    match root
    case Lookup(_) => LOOKUP_FANOUT * Weight(FIRST_BUDGET)
    case RandomLookup(_) => LOOKUP_FANOUT * Weight(FIRST_BUDGET)
    case Bootstrap(_) => Weight(FIRST_BUDGET)
    case Sample(_) => 1
  }

  lemma Caps(id: nat, n: nat)
    ensures Cap(Lookup(id)) == 168 && Cap(RandomLookup(n)) == 168 && Cap(Bootstrap(n)) == 21 && Cap(Sample(n)) == 1
  {
    assert Weight(2) == 21;
  }

  predicate Issued(s: State, root: Root)
  {
    match root
    case Lookup(n) => n < s.tracker.begun
    case RandomLookup(n) => n < s.nextProbe
    case Bootstrap(n) => n < s.nextProbe
    case Sample(n) => n < s.nextProbe
  }

  /** No origin has caused, or can still cause, more than its cap; origins not yet issued have caused nothing. */
  ghost predicate BudgetOk(s: State)
  {
    && (forall root :: Total(s, root) <= Cap(root))
    && (forall root | root in s.sent :: Issued(s, root))
    && (forall tx | tx in s.pending :: Issued(s, s.pending[tx].rpc.root))
  }

  // ------------------------------------------------------------ sends

  /** What sending these RPCs adds for root, at most. */
  function Plan(rpcs: seq<Rpc>, root: Root): nat
  {
    if |rpcs| == 0 then 0
    else Plan(rpcs[..|rpcs| - 1], root) + if rpcs[|rpcs| - 1].root == root then Weight(rpcs[|rpcs| - 1].budget) else 0
  }

  /** A send adds the weight of its budget to the total of its own origin, or nothing; nothing elsewhere. */
  lemma SendTotal(s: State, cfg: Config, rpc: Rpc, now: int, delivered: bool, root: Root)
    ensures var s' := SendRpc(s, cfg, rpc, now, delivered);
            && Total(s', root) <= Total(s, root) + (if rpc.root == root then Weight(rpc.budget) else 0)
            && PendingWeight(s', root) <= PendingWeight(s, root) + (if rpc.root == root then Weight(rpc.budget) else 0)
  {
    AllocateFresh(s, cfg);
    hide Allocate, Sum;
    var tx := Allocate(s, cfg).0;
    if tx.Some? && delivered {
      var p := Pending(rpc, now + cfg.rpcTimeout);
      var s' := SendRpc(s, cfg, rpc, now, delivered);
      assert s'.pending == s.pending[tx.value := p];
      assert SentBy(s', root) == SentBy(s, root) + Own(rpc.root == root);
      SumPut(s.pending, LaterOf(root), tx.value, p);
      SumPut(s.pending, WeightOf(root), tx.value, p);
    }
  }

  lemma SendIssued(s: State, cfg: Config, rpc: Rpc, now: int, delivered: bool)
    requires (forall r | r in s.sent :: Issued(s, r)) && (forall tx | tx in s.pending :: Issued(s, s.pending[tx].rpc.root))
    requires Issued(s, rpc.root)
    ensures var s' := SendRpc(s, cfg, rpc, now, delivered);
            && (forall r | r in s'.sent :: Issued(s', r)) && (forall tx | tx in s'.pending :: Issued(s', s'.pending[tx].rpc.root))
            && s'.tracker.begun == s.tracker.begun && s'.nextProbe == s.nextProbe
  {
    hide FirstFree;
  }

  ghost predicate IssuedAll(s: State)
  {
    (forall r | r in s.sent :: Issued(s, r)) && (forall tx | tx in s.pending :: Issued(s, s.pending[tx].rpc.root))
  }

  lemma {:induction false} SendAllTotals(s: State, cfg: Config, rpcs: seq<Rpc>, now: int, delivered: seq<bool>)
    requires IssuedAll(s) && forall i | 0 <= i < |rpcs| :: Issued(s, rpcs[i].root)
    ensures var s' := SendAll(s, cfg, rpcs, now, delivered);
            && IssuedAll(s')
            && s'.tracker.begun == s.tracker.begun && s'.nextProbe == s.nextProbe
            && (forall root :: Total(s', root) <= Total(s, root) + Plan(rpcs, root))
            && (forall root :: PendingWeight(s', root) <= PendingWeight(s, root) + Plan(rpcs, root))
  {
    hide SendRpc, Total, PendingWeight;
    if |rpcs| > 0 {
      var last := |rpcs| - 1;
      SendAllTotals(s, cfg, rpcs[..last], now, delivered);
      var s1 := SendAll(s, cfg, rpcs[..last], now, delivered);
      SendIssued(s1, cfg, rpcs[last], now, Flag(delivered, last));
      forall root
        ensures Total(SendRpc(s1, cfg, rpcs[last], now, Flag(delivered, last)), root) <= Total(s, root) + Plan(rpcs, root)
        ensures PendingWeight(SendRpc(s1, cfg, rpcs[last], now, Flag(delivered, last)), root)
                <= PendingWeight(s, root) + Plan(rpcs, root)
      {
        SendTotal(s1, cfg, rpcs[last], now, Flag(delivered, last), root);
      }
    }
  }

  /** RPCs of one origin and one budget. */
  lemma {:induction false} UniformPlan(rpcs: seq<Rpc>, origin: Root, budget: nat, root: Root)
    requires forall i | 0 <= i < |rpcs| :: rpcs[i].root == origin && rpcs[i].budget == budget
    ensures Plan(rpcs, root) == if root == origin then |rpcs| * Weight(budget) else 0
  {
    if |rpcs| > 0 {
      UniformPlan(rpcs[..|rpcs| - 1], origin, budget, root);
      assert root == origin ==> (|rpcs| - 1) * Weight(budget) + Weight(budget) == |rpcs| * Weight(budget);
    }
  }

  // ------------------------------------------------------------ removals

  lemma RetireTotal(s: State, tx: Transaction, until: int, root: Root)
    requires tx in s.pending
    ensures var rpc := s.pending[tx].rpc;
            && Total(Retire(s, tx, until), root) == Total(s, root) - (if rpc.root == root then Weight(rpc.budget) - 1 else 0)
            && PendingWeight(Retire(s, tx, until), root) == PendingWeight(s, root) - (if rpc.root == root then Weight(rpc.budget) else 0)
  {
    SumTake(s.pending, LaterOf(root), tx);
    SumTake(s.pending, WeightOf(root), tx);
  }

  /** Same pending table, same sends: same totals. */
  lemma SameTotals(s: State, s': State)
    requires s'.pending == s.pending && s'.sent == s.sent
    ensures forall root :: Total(s', root) == Total(s, root) && PendingWeight(s', root) == PendingWeight(s, root)
  {
  }

  // ------------------------------------------------------------ handlers

  /** What a handler does when it takes one RPC out: totals do not grow, and the weight of its origin falls. */
  ghost predicate Consumes(s: State, s': State, origin: Root)
  {
    && (forall root :: Total(s', root) <= Total(s, root))
    && (forall root :: PendingWeight(s', root) <= PendingWeight(s, root))
    && PendingWeight(s', origin) < PendingWeight(s, origin)
    && (IssuedAll(s) ==> IssuedAll(s'))
    && s'.nextProbe == s.nextProbe && s'.tracker.begun == s.tracker.begun
  }

  lemma RemovalConsumes(s: State, tx: Transaction, until: int, s': State)
    requires tx in s.pending
    requires s'.pending == s.pending - {tx} && s'.sent == s.sent
    requires s'.nextProbe == s.nextProbe && s'.tracker.begun == s.tracker.begun
    ensures Consumes(s, s', s.pending[tx].rpc.root)
  {
    hide Total, PendingWeight;
    SameTotals(Retire(s, tx, until), s');
    forall root
      ensures Total(s', root) <= Total(s, root) && PendingWeight(s', root) <= PendingWeight(s, root)
    {
      RetireTotal(s, tx, until, root);
      WeightPositive(s.pending[tx].rpc.budget);
    }
    RetireTotal(s, tx, until, s.pending[tx].rpc.root);
    WeightPositive(s.pending[tx].rpc.budget);
    if IssuedAll(s) {
      IssuedStays(s, s');
    }
  }

  lemma {:induction false} WeightPositive(budget: nat)
    ensures Weight(budget) >= 1
  {
  }

  lemma IssuedStays(s: State, s': State)
    requires IssuedAll(s)
    requires s'.nextProbe >= s.nextProbe && s'.tracker.begun >= s.tracker.begun
    requires s'.sent == s.sent
    requires forall tx | tx in s'.pending :: tx in s.pending && s'.pending[tx] == s.pending[tx]
    ensures IssuedAll(s')
  {
  }

  /** At most four continuations with one budget less weigh less than the RPC they continue. */
  lemma ContinuationConsumes(s: State, cfg: Config, tx: Transaction, until: int, q: State, rpcs: seq<Rpc>, now: int,
                             delivered: seq<bool>)
    requires tx in s.pending && IssuedAll(s)
    requires var rpc := s.pending[tx].rpc;
             && rpc.budget > 0 && |rpcs| <= LOOKUP_CONTINUATION_FANOUT
             && forall i | 0 <= i < |rpcs| :: rpcs[i].root == rpc.root && rpcs[i].budget == rpc.budget - 1
    requires q.pending == s.pending - {tx} && q.sent == s.sent
    requires q.nextProbe == s.nextProbe && q.tracker.begun == s.tracker.begun
    ensures Consumes(s, SendAll(q, cfg, rpcs, now, delivered), s.pending[tx].rpc.root)
  {
    hide Total, PendingWeight, SendAll;
    var rpc := s.pending[tx].rpc;
    var s' := SendAll(q, cfg, rpcs, now, delivered);
    IssuedStays(s, q);
    SendAllTotals(q, cfg, rpcs, now, delivered);
    SameTotals(Retire(s, tx, until), q);
    var w := Weight(rpc.budget - 1);
    assert |rpcs| * w <= LOOKUP_CONTINUATION_FANOUT * w by {
      MulMonotone(|rpcs|, LOOKUP_CONTINUATION_FANOUT, w);
    }
    forall root
      ensures Total(s', root) <= Total(s, root)
      ensures PendingWeight(s', root) <= PendingWeight(s, root) - Own(rpc.root == root)
    {
      UniformPlan(rpcs, rpc.root, rpc.budget - 1, root);
      RetireTotal(s, tx, until, root);
    }
  }

  function Own(b: bool): nat
  {
    if b then 1 else 0
  }

  lemma CompleteForKeeps(s: State, lookupId: Option<LookupId>, found: bool)
    ensures var s' := CompleteFor(s, lookupId, found);
            s'.pending == s.pending && s'.sent == s.sent && s'.nextProbe == s.nextProbe && s'.tracker.begun == s.tracker.begun
  {
  }

  lemma ConsumesThenSame(s: State, m: State, s': State, origin: Root)
    requires Consumes(s, m, origin)
    requires s'.pending == m.pending && s'.sent == m.sent && s'.nextProbe == m.nextProbe && s'.tracker.begun == m.tracker.begun
    ensures Consumes(s, s', origin)
  {
    hide Total, PendingWeight;
    SameTotals(m, s');
    if IssuedAll(m) {
      IssuedStays(m, s');
    }
  }

  lemma QueueHashKeeps(s: State, cfg: Config, hash: InfoHash)
    ensures QueueHash(s, cfg, hash) == s.(queue := QueueHash(s, cfg, hash).queue, queued := QueueHash(s, cfg, hash).queued)
  {
  }

  lemma {:induction false} QueueAllKeeps(s: State, cfg: Config, hashes: seq<InfoHash>)
    ensures QueueAll(s, cfg, hashes) == s.(queue := QueueAll(s, cfg, hashes).queue, queued := QueueAll(s, cfg, hashes).queued)
  {
    if |hashes| > 0 {
      QueueAllKeeps(s, cfg, hashes[..|hashes| - 1]);
      QueueHashKeeps(QueueAll(s, cfg, hashes[..|hashes| - 1]), cfg, hashes[|hashes| - 1]);
    }
  }

  /** The GetPeers arm, after the RPC was taken out. */
  lemma GetPeersConsumes(s: State, cfg: Config, tx: Transaction, m: Response, now: int, delivered: seq<bool>)
    requires tx in s.pending && IssuedAll(s)
    ensures Consumes(s, GetPeersAnswered(Retire(s, tx, now + cfg.rpcTimeout), cfg, s.pending[tx].rpc, m, now, delivered),
                     s.pending[tx].rpc.root)
  {
    hide Consumes, SendAll, Complete;
    var rpc := s.pending[tx].rpc;
    var until := now + cfg.rpcTimeout;
    var s1 := Retire(s, tx, until);
    var hasPeers := Peers(m) != [];
    if rpc.infoHash.None? {
      CompleteForKeeps(s1, rpc.lookupId, hasPeers);
      RemovalConsumes(s, tx, until, CompleteFor(s1, rpc.lookupId, hasPeers));
    } else {
      var hash := rpc.infoHash.value;
      var q := if hasPeers || rpc.isRealLookup then QueueHash(s1, cfg, hash) else s1;
      QueueHashKeeps(s1, cfg, hash);
      var c := ContinueGetPeers(q, cfg, hash, Nodes(m), rpc, now, delivered);
      if rpc.budget == 0 {
        RemovalConsumes(s, tx, until, c);
      } else {
        ContinuationConsumes(s, cfg, tx, until, q, GetPeersChildren(rpc, hash, Take(Nodes(m), LOOKUP_CONTINUATION_FANOUT)),
                             now, delivered);
      }
      CompleteForKeeps(c, rpc.lookupId, hasPeers);
      ConsumesThenSame(s, c, CompleteFor(c, rpc.lookupId, hasPeers), rpc.root);
    }
  }

  /** Whatever the answer, the origin of the answered RPC can cause strictly less afterwards. */
  lemma AnswerConsumes(s: State, cfg: Config, tx: Transaction, m: Response, now: int, delivered: seq<bool>)
    requires tx in s.pending && IssuedAll(s)
    ensures Consumes(s, Answered(Retire(s, tx, now + cfg.rpcTimeout), cfg, s.pending[tx].rpc, m, now, delivered),
                     s.pending[tx].rpc.root)
  {
    hide Consumes, SendAll, GetPeersAnswered;
    var rpc := s.pending[tx].rpc;
    var until := now + cfg.rpcTimeout;
    var s1 := Retire(s, tx, until);
    match rpc.kind
    case Ping => RemovalConsumes(s, tx, until, s1);
    case FindNode =>
      if rpc.budget == 0 {
        RemovalConsumes(s, tx, until, s1);
      } else {
        ContinuationConsumes(s, cfg, tx, until, s1, FindNodeChildren(rpc, Take(Nodes(m), LOOKUP_CONTINUATION_FANOUT)), now, delivered);
      }
    case GetPeers => GetPeersConsumes(s, cfg, tx, m, now, delivered);
    case SampleInfohashes =>
      if m.samples.Some? {
        QueueAllKeeps(s1, cfg, m.samples.value);
        RemovalConsumes(s, tx, until, QueueAll(s1, cfg, m.samples.value));
      } else {
        RemovalConsumes(s, tx, until, s1);
      }
  }

  /** Each completion, malformed or not, strictly lowers the weight of the RPC's origin. */
  lemma ResponseConsumes(s: State, cfg: Config, m: Response, source: SocketAddr, now: int, delivered: seq<bool>)
    requires IssuedAll(s)
    requires Correlate(s.pending, m, source).Malformed? || Correlate(s.pending, m, source).Correlated?
    ensures Consumes(s, HandleResponse(s, cfg, m, source, now, delivered), s.pending[m.id.tx].rpc.root)
  {
    hide Consumes, Answered, Complete;
    var tx := m.id.tx;
    if Correlate(s.pending, m, source).Malformed? {
      var s1 := Retire(s, tx, now + cfg.rpcTimeout);
      CompleteForKeeps(s1, s.pending[tx].rpc.lookupId, false);
      RemovalConsumes(s, tx, now + cfg.rpcTimeout, CompleteFor(s1, s.pending[tx].rpc.lookupId, false));
    } else {
      AnswerConsumes(s, cfg, tx, m, now, delivered);
    }
  }

  lemma ErrorConsumes(s: State, cfg: Config, tx: Transaction, source: SocketAddr, now: int)
    requires tx in s.pending && s.pending[tx].rpc.addr == source
    ensures Consumes(s, HandleError(s, cfg, Ours(tx), source, now), s.pending[tx].rpc.root)
  {
    hide Consumes, Complete;
    var s1 := Retire(s, tx, now + cfg.rpcTimeout);
    CompleteForKeeps(s1, s.pending[tx].rpc.lookupId, false);
    RemovalConsumes(s, tx, now + cfg.rpcTimeout, CompleteFor(s1, s.pending[tx].rpc.lookupId, false));
  }

  lemma TimeoutConsumes(s: State, cfg: Config, tx: Transaction, now: int)
    requires tx in s.pending
    ensures Consumes(s, ExpireOne(s, cfg, tx, now), s.pending[tx].rpc.root)
  {
    hide Consumes, Complete;
    var rpc := s.pending[tx].rpc;
    var s1 := Retire(s, tx, now + cfg.rpcTimeout);
    var s2 := if rpc.isRealLookup && rpc.infoHash.Some? then QueueHash(s1, cfg, rpc.infoHash.value) else s1;
    CompleteForKeeps(s2, rpc.lookupId, false);
    RemovalConsumes(s, tx, now + cfg.rpcTimeout, CompleteFor(s2, rpc.lookupId, false));
  }

  // ------------------------------------------------------------ the invariant

  lemma BudgetParts(s: State)
    ensures BudgetOk(s) <==> IssuedAll(s) && (forall root :: Total(s, root) <= Cap(root))
  {
  }

  lemma ConsumesKeeps(s: State, s': State, origin: Root)
    requires BudgetOk(s) && Consumes(s, s', origin)
    ensures BudgetOk(s')
  {
    hide Total, PendingWeight;
    BudgetParts(s);
    BudgetParts(s');
    forall root
      ensures Total(s', root) <= Cap(root)
    {
      assert Total(s, root) <= Cap(root);
    }
  }

  /** Same pending table and sends, counters no lower. */
  lemma SameKeeps(s: State, s': State)
    requires BudgetOk(s) && s'.pending == s.pending && s'.sent == s.sent
    requires s'.nextProbe >= s.nextProbe && s'.tracker.begun >= s.tracker.begun
    ensures BudgetOk(s')
  {
    hide Total;
    SameTotals(s, s');
    IssuedStays(s, s');
    BudgetParts(s');
  }

  /** An origin that was never issued has caused nothing. */
  lemma NotIssued(s: State, root: Root)
    requires IssuedAll(s) && !Issued(s, root)
    ensures Total(s, root) == 0
  {
    assert forall tx | tx in s.pending :: LaterOf(root)(s.pending[tx]) == 0;
    SumZero(s.pending, LaterOf(root));
  }

  /** Sends for origins that are fresh, each within its cap. */
  lemma FreshSends(s: State, s1: State, cfg: Config, rpcs: seq<Rpc>, now: int, delivered: seq<bool>)
    requires BudgetOk(s)
    requires s1.pending == s.pending && s1.sent == s.sent
    requires s1.nextProbe >= s.nextProbe && s1.tracker.begun >= s.tracker.begun
    requires forall i | 0 <= i < |rpcs| :: Issued(s1, rpcs[i].root) && !Issued(s, rpcs[i].root)
    requires forall root | !Issued(s, root) :: Plan(rpcs, root) <= Cap(root)
    ensures BudgetOk(SendAll(s1, cfg, rpcs, now, delivered))
    ensures SendAll(s1, cfg, rpcs, now, delivered).tracker.begun == s1.tracker.begun
  {
    hide Total, SendAll, PendingWeight, Plan;
    SameKeeps(s, s1);
    BudgetParts(s1);
    SendAllTotals(s1, cfg, rpcs, now, delivered);
    var s' := SendAll(s1, cfg, rpcs, now, delivered);
    forall root
      ensures Total(s', root) <= Cap(root)
    {
      SameTotals(s, s1);
      if Issued(s, root) {
        NoPlan(rpcs, root);
      } else {
        NotIssued(s, root);
      }
    }
    BudgetParts(s');
  }

  lemma {:induction false} NoPlan(rpcs: seq<Rpc>, root: Root)
    requires forall i | 0 <= i < |rpcs| :: rpcs[i].root != root
    ensures Plan(rpcs, root) == 0
  {
    if |rpcs| > 0 {
      NoPlan(rpcs[..|rpcs| - 1], root);
    }
  }

  /** One RPC for each of several fresh origins. */
  lemma {:induction false} OneEachPlan(rpcs: seq<Rpc>, root: Root, cap: nat)
    requires forall i, j | 0 <= i < j < |rpcs| :: rpcs[i].root != rpcs[j].root
    requires forall i | 0 <= i < |rpcs| && rpcs[i].root == root :: Weight(rpcs[i].budget) <= cap
    ensures Plan(rpcs, root) <= cap
  {
    if |rpcs| > 0 {
      var last := |rpcs| - 1;
      if rpcs[last].root == root {
        NoPlan(rpcs[..last], root);
      } else {
        OneEachPlan(rpcs[..last], root, cap);
      }
    }
  }

  lemma BootstrapBudget(s: State, cfg: Config, ourId: NodeId, addrs: seq<SocketAddr>, now: int, delivered: seq<bool>)
    requires BudgetOk(s)
    ensures BudgetOk(RunBootstrap(s, cfg, ourId, addrs, now, delivered))
    ensures RunBootstrap(s, cfg, ourId, addrs, now, delivered).tracker.begun == s.tracker.begun
  {
    hide BudgetOk, SendAll, Plan;
    var rpcs := BootstrapRpcs(ourId, addrs, s.nextProbe);
    forall root
      ensures Plan(rpcs, root) <= Cap(root)
    {
      OneEachPlan(rpcs, root, Cap(root));
    }
    FreshSends(s, s.(nextProbe := s.nextProbe + |addrs|), cfg, rpcs, now, delivered);
  }

  lemma SamplingBudget(s: State, cfg: Config, probes: seq<(Contact, NodeId)>, now: int, delivered: seq<bool>)
    requires BudgetOk(s)
    ensures BudgetOk(RunSampling(s, cfg, probes, now, delivered))
    ensures RunSampling(s, cfg, probes, now, delivered).tracker.begun == s.tracker.begun
  {
    hide BudgetOk, SendAll, Plan;
    var rpcs := SampleRpcs(probes, s.nextProbe);
    forall root
      ensures Plan(rpcs, root) <= Cap(root)
    {
      OneEachPlan(rpcs, root, Cap(root));
    }
    FreshSends(s, s.(nextProbe := s.nextProbe + |probes|), cfg, rpcs, now, delivered);
  }

  lemma LookupPlan(hash: InfoHash, nodes: seq<Contact>, lookupId: Option<LookupId>, origin: Root, root: Root)
    requires |nodes| <= LOOKUP_FANOUT && (origin.Lookup? || origin.RandomLookup?)
    ensures Plan(LookupRpcs(hash, nodes, lookupId, origin), root) <= Cap(root)
  {
    hide Plan;
    UniformPlan(LookupRpcs(hash, nodes, lookupId, origin), origin, FIRST_BUDGET, root);
    MulMonotone(|nodes|, LOOKUP_FANOUT, Weight(FIRST_BUDGET));
  }

  lemma StartRandomBudget(s: State, cfg: Config, hash: InfoHash, nodes: seq<Contact>, now: int, delivered: seq<bool>)
    requires BudgetOk(s) && |nodes| <= LOOKUP_FANOUT
    ensures BudgetOk(StartRandom(s, cfg, hash, nodes, now, delivered))
    ensures StartRandom(s, cfg, hash, nodes, now, delivered).tracker.begun == s.tracker.begun
  {
    hide BudgetOk, SendAll, Plan;
    var rpcs := LookupRpcs(hash, nodes, None, RandomLookup(s.nextProbe));
    forall root
      ensures Plan(rpcs, root) <= Cap(root)
    {
      LookupPlan(hash, nodes, None, RandomLookup(s.nextProbe), root);
    }
    FreshSends(s, s.(nextProbe := s.nextProbe + 1), cfg, rpcs, now, delivered);
  }

  lemma StartRealBudget(s: State, cfg: Config, hash: InfoHash, nodes: seq<Contact>, now: int, delivered: seq<bool>)
    requires BudgetOk(s) && |nodes| <= LOOKUP_FANOUT
    ensures BudgetOk(StartReal(s, cfg, hash, nodes, now, delivered))
    ensures StartReal(s, cfg, hash, nodes, now, delivered).tracker.begun == s.tracker.begun + 1
  {
    hide BudgetOk, SendAll, Plan;
    var id := s.tracker.nextId;
    var rpcs := LookupRpcs(hash, nodes, Some(id), Lookup(s.tracker.begun));
    forall root
      ensures Plan(rpcs, root) <= Cap(root)
    {
      LookupPlan(hash, nodes, Some(id), Lookup(s.tracker.begun), root);
    }
    var s1 := s.(tracker := Begin(s.tracker));
    FreshSends(s, s1, cfg, rpcs, now, delivered);
    var s2 := SendAll(s1, cfg, rpcs, now, delivered);
    SameKeeps(s2, s2.(tracker := Started(s2.tracker, id)));
  }

  lemma {:induction false} ExpireAllBudget(s: State, cfg: Config, order: seq<Transaction>, now: int)
    requires BudgetOk(s)
    ensures BudgetOk(ExpireAll(s, cfg, order, now))
    ensures ExpireAll(s, cfg, order, now).tracker.begun == s.tracker.begun
  {
    hide BudgetOk, ExpireOne;
    if |order| > 0 {
      var s1 := ExpireAll(s, cfg, order[..|order| - 1], now);
      ExpireAllBudget(s, cfg, order[..|order| - 1], now);
      var tx := order[|order| - 1];
      if tx in s1.pending {
        TimeoutConsumes(s1, cfg, tx, now);
        ConsumesKeeps(s1, ExpireOne(s1, cfg, tx, now), s1.pending[tx].rpc.root);
      } else {
        ExpireAbsent(s1, cfg, tx, now);
      }
    }
  }

  lemma ExpireAbsent(s: State, cfg: Config, tx: Transaction, now: int)
    requires tx !in s.pending
    ensures ExpireOne(s, cfg, tx, now) == s
  {
  }

  lemma ExpireBudget(s: State, cfg: Config, order: seq<Transaction>, now: int)
    requires BudgetOk(s)
    ensures BudgetOk(ExpirePending(s, cfg, order, now))
    ensures ExpirePending(s, cfg, order, now).tracker.begun == s.tracker.begun
  {
    hide BudgetOk, ExpireAll;
    SameKeeps(s, DropReusable(s, now));
    ExpireAllBudget(DropReusable(s, now), cfg, order, now);
  }

  lemma DiscoverBudget(s: State, cfg: Config, ourId: NodeId, tick: Tick, now: int, delivered: seq<bool>)
    requires BudgetOk(s)
    ensures BudgetOk(Discover(s, cfg, ourId, tick, now, delivered))
  {
    hide BudgetOk, ExpirePending, RunBootstrap, StartReal, StartRandom;
    ExpireBudget(s, cfg, tick.order, now);
    var s0 := ExpirePending(s, cfg, tick.order, now);
    var nodes := tick.nodes;
    if s0.queue != [] {
      var hash := s0.queue[0];
      var s1 := s0.(queue := s0.queue[1..], queued := s0.queued - {hash});
      SameKeeps(s0, s1);
      if nodes == [] {
        QueueHashKeeps(s1, cfg, hash);
        SameKeeps(s1, QueueHash(s1, cfg, hash));
        BootstrapBudget(QueueHash(s1, cfg, hash), cfg, ourId, tick.bootstrap, now, delivered);
      } else {
        StartRealBudget(s1, cfg, hash, nodes, now, delivered);
      }
    } else if nodes == [] {
      BootstrapBudget(s0, cfg, ourId, tick.bootstrap, now, delivered);
    } else {
      StartRandomBudget(s0, cfg, tick.randomId, nodes, now, delivered);
    }
  }

  lemma ResponseBudget(s: State, cfg: Config, m: Response, source: SocketAddr, now: int, delivered: seq<bool>)
    requires BudgetOk(s)
    ensures BudgetOk(HandleResponse(s, cfg, m, source, now, delivered))
    ensures HandleResponse(s, cfg, m, source, now, delivered).tracker.begun == s.tracker.begun
  {
    hide Answered, CompleteFor;
    var c := Correlate(s.pending, m, source);
    if c.Malformed? || c.Correlated? {
      ResponseConsumes(s, cfg, m, source, now, delivered);
      ConsumesKeeps(s, HandleResponse(s, cfg, m, source, now, delivered), s.pending[m.id.tx].rpc.root);
    }
  }

  lemma StepBudget(s: State, cfg: Config, ourId: NodeId, input: Input)
    requires BudgetOk(s)
    ensures BudgetOk(Step(s, cfg, ourId, input))
  {
    hide BudgetOk, HandleResponse, CompleteFor, QueueAll, ExpirePending, Discover, RunSampling, RunBootstrap;
    match input
    case Answer(m, source, now, delivered) => ResponseBudget(s, cfg, m, source, now, delivered);
    case Error(id, source, now) =>
      if id.Ours? && id.tx in s.pending && s.pending[id.tx].rpc.addr == source {
        ErrorConsumes(s, cfg, id.tx, source, now);
        ConsumesKeeps(s, HandleError(s, cfg, id, source, now), s.pending[id.tx].rpc.root);
      }
    case Observe(hashes) =>
      QueueAllKeeps(s, cfg, hashes);
      SameKeeps(s, QueueAll(s, cfg, hashes));
    case Refresh(order, now) => ExpireBudget(s, cfg, order, now);
    case DiscoveryTick(tick, now, delivered) => DiscoverBudget(s, cfg, ourId, tick, now, delivered);
    case SamplingTick(probes, now, delivered) => SamplingBudget(s, cfg, probes, now, delivered);
    case BootstrapAll(addrs, now, delivered) => BootstrapBudget(s, cfg, ourId, addrs, now, delivered);
  }

  lemma InitialBudget(nextTx: Transaction)
    ensures BudgetOk(Initial(nextTx))
  {
  }

  lemma {:induction false} RunBudget(cfg: Config, ourId: NodeId, nextTx: Transaction, inputs: seq<Input>)
    ensures BudgetOk(Run(Initial(nextTx), cfg, ourId, inputs))
  {
    hide BudgetOk, Step;
    if |inputs| == 0 {
      InitialBudget(nextTx);
    } else {
      RunBudget(cfg, ourId, nextTx, inputs[..|inputs| - 1]);
      StepBudget(Run(Initial(nextTx), cfg, ourId, inputs[..|inputs| - 1]), cfg, ourId, inputs[|inputs| - 1]);
    }
  }

  /** Whatever peers answer and whatever is lost: a lookup sends at most 168 RPCs over the whole run, a bootstrap
      contact triggers at most 21, a sampled node one. */
  lemma RpcBounds(cfg: Config, ourId: NodeId, nextTx: Transaction, inputs: seq<Input>, id: nat, n: nat)
    ensures var s := Run(Initial(nextTx), cfg, ourId, inputs);
            && SentBy(s, Lookup(id)) <= 168
            && SentBy(s, RandomLookup(n)) <= 168
            && SentBy(s, Bootstrap(n)) <= 21
            && SentBy(s, Sample(n)) <= 1
  {
    hide Run, Cap;
    RunBudget(cfg, ourId, nextTx, inputs);
    Caps(id, n);
    var s := Run(Initial(nextTx), cfg, ourId, inputs);
    SentWithinTotal(s, Lookup(id));
    SentWithinTotal(s, RandomLookup(n));
    SentWithinTotal(s, Bootstrap(n));
    SentWithinTotal(s, Sample(n));
  }

  lemma SentWithinTotal(s: State, root: Root)
    requires BudgetOk(s)
    ensures SentBy(s, root) <= Cap(root)
  {
    assert Total(s, root) <= Cap(root);
    SumBounds(s.pending, LaterOf(root));
  }
}
