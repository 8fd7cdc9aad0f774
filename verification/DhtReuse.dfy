/** When the 64-bit lookup id comes round to one that is still in use: never in the first 2^64 lookups of a run,
    and in a run that begins one more while the first is still waiting for its answer. */
module DhtReuse {
  import opened NodeIds
  import opened Net
  import opened Seqs
  import opened DhtState
  import opened DhtLookups

  // ------------------------------------------------------------ counting the lookups begun

  /** Every change of the tracker but the beginning of a lookup leaves the number of lookups begun. */
  ghost predicate SameBegun(s: State, s': State)
  {
    s'.tracker.begun == s.tracker.begun
  }

  lemma {:induction false} SendAllBegun(s: State, cfg: Config, rpcs: seq<Rpc>, now: int, delivered: seq<bool>)
    ensures SameBegun(s, SendAll(s, cfg, rpcs, now, delivered))
  {
    hide Allocate;
    if |rpcs| > 0 {
      SendAllBegun(s, cfg, rpcs[..|rpcs| - 1], now, delivered);
    }
  }

  lemma {:induction false} QueueAllBegun(s: State, cfg: Config, hashes: seq<InfoHash>)
    ensures SameBegun(s, QueueAll(s, cfg, hashes))
  {
    if |hashes| > 0 {
      QueueAllBegun(s, cfg, hashes[..|hashes| - 1]);
    }
  }

  lemma {:induction false} ExpireAllBegun(s: State, cfg: Config, order: seq<Transaction>, now: int)
    ensures SameBegun(s, ExpireAll(s, cfg, order, now))
  {
    if |order| > 0 {
      ExpireAllBegun(s, cfg, order[..|order| - 1], now);
    }
  }

  lemma GetPeersBegun(s: State, cfg: Config, rpc: Rpc, m: Response, now: int, delivered: seq<bool>)
    ensures SameBegun(s, GetPeersAnswered(s, cfg, rpc, m, now, delivered))
  {
    hide SendAll;
    if rpc.budget > 0 && rpc.infoHash.Some? {
      var hash := rpc.infoHash.value;
      var q := if Peers(m) != [] || rpc.isRealLookup then QueueHash(s, cfg, hash) else s;
      SendAllBegun(q, cfg, GetPeersChildren(rpc, hash, Take(Nodes(m), LOOKUP_CONTINUATION_FANOUT)), now, delivered);
    }
  }

  lemma AnsweredBegun(s: State, cfg: Config, rpc: Rpc, m: Response, now: int, delivered: seq<bool>)
    ensures SameBegun(s, Answered(s, cfg, rpc, m, now, delivered))
  {
    hide SendAll, QueueAll, GetPeersAnswered;
    match rpc.kind
    case Ping =>
    case FindNode =>
      if rpc.budget > 0 {
        SendAllBegun(s, cfg, FindNodeChildren(rpc, Take(Nodes(m), LOOKUP_CONTINUATION_FANOUT)), now, delivered);
      }
    case GetPeers => GetPeersBegun(s, cfg, rpc, m, now, delivered);
    case SampleInfohashes =>
      if m.samples.Some? {
        QueueAllBegun(s, cfg, m.samples.value);
      }
  }

  predicate Begins(s: State, cfg: Config, input: Input)
  {
    input.DiscoveryTick? && input.tick.nodes != [] && ExpirePending(s, cfg, input.tick.order, input.now).queue != []
  }

  lemma StartRealBegun(s: State, cfg: Config, hash: InfoHash, nodes: seq<Contact>, now: int, delivered: seq<bool>)
    ensures StartReal(s, cfg, hash, nodes, now, delivered).tracker.begun == s.tracker.begun + 1
  {
    hide SendAll;
    var id := s.tracker.nextId;
    SendAllBegun(s.(tracker := Begin(s.tracker)), cfg, LookupRpcs(hash, nodes, Some(id), Lookup(s.tracker.begun)), now, delivered);
  }

  lemma QueueBegun(s: State, cfg: Config, hash: InfoHash)
    ensures SameBegun(s, QueueHash(s, cfg, hash))
  {
  }

  lemma StartRandomBegun(s: State, cfg: Config, hash: InfoHash, nodes: seq<Contact>, now: int, delivered: seq<bool>)
    ensures SameBegun(s, StartRandom(s, cfg, hash, nodes, now, delivered))
  {
    hide SendAll;
    SendAllBegun(s.(nextProbe := s.nextProbe + 1), cfg, LookupRpcs(hash, nodes, None, RandomLookup(s.nextProbe)), now, delivered);
  }

  lemma BootstrapBegun(s: State, cfg: Config, ourId: NodeId, addrs: seq<SocketAddr>, now: int, delivered: seq<bool>)
    ensures SameBegun(s, RunBootstrap(s, cfg, ourId, addrs, now, delivered))
  {
    hide SendAll;
    SendAllBegun(s.(nextProbe := s.nextProbe + |addrs|), cfg, BootstrapRpcs(ourId, addrs, s.nextProbe), now, delivered);
  }

  lemma DiscoverBegun(s: State, cfg: Config, ourId: NodeId, tick: Tick, now: int, delivered: seq<bool>)
    ensures Discover(s, cfg, ourId, tick, now, delivered).tracker.begun
            == s.tracker.begun + if Begins(s, cfg, DiscoveryTick(tick, now, delivered)) then 1 else 0
  {
    ExpireAllBegun(DropReusable(s, now), cfg, tick.order, now);
    var s0 := ExpirePending(s, cfg, tick.order, now);
    assert SameBegun(s, s0);
    hide ExpirePending, StartReal, StartRandom, RunBootstrap, QueueHash;
    if s0.queue != [] {
      var hash := s0.queue[0];
      var s1 := s0.(queue := s0.queue[1..], queued := s0.queued - {hash});
      if tick.nodes == [] {
        QueueBegun(s1, cfg, hash);
        BootstrapBegun(QueueHash(s1, cfg, hash), cfg, ourId, tick.bootstrap, now, delivered);
      } else {
        StartRealBegun(s1, cfg, hash, tick.nodes, now, delivered);
      }
    } else if tick.nodes == [] {
      BootstrapBegun(s0, cfg, ourId, tick.bootstrap, now, delivered);
    } else {
      StartRandomBegun(s0, cfg, tick.randomId, tick.nodes, now, delivered);
    }
  }

  /** The number of lookups begun counts exactly the ticks that begin one. */
  lemma StepBegun(s: State, cfg: Config, ourId: NodeId, input: Input)
    ensures Step(s, cfg, ourId, input).tracker.begun == s.tracker.begun + if Begins(s, cfg, input) then 1 else 0
  {
    hide Answered, QueueAll, ExpireAll, Discover, SendAll;
    match input
    case Answer(m, source, now, delivered) =>
      var c := Correlate(s.pending, m, source);
      if c.Correlated? {
        AnsweredBegun(Retire(s, c.tx, now + cfg.rpcTimeout), cfg, s.pending[c.tx].rpc, m, now, delivered);
      }
    case Error(id, source, now) =>
    case Observe(hashes) => QueueAllBegun(s, cfg, hashes);
    case Refresh(order, now) => ExpireAllBegun(DropReusable(s, now), cfg, order, now);
    case DiscoveryTick(tick, now, delivered) => DiscoverBegun(s, cfg, ourId, tick, now, delivered);
    case SamplingTick(probes, now, delivered) =>
      SendAllBegun(s.(nextProbe := s.nextProbe + |probes|), cfg, SampleRpcs(probes, s.nextProbe), now, delivered);
    case BootstrapAll(addrs, now, delivered) => BootstrapBegun(s, cfg, ourId, addrs, now, delivered);
  }

  /** In a run that begins at most 2^64 lookups, however long it is, no id is given out that is in use. */
  lemma {:induction false} ShortRuns(cfg: Config, ourId: NodeId, nextTx: Transaction, inputs: seq<Input>)
    requires Run(Initial(nextTx), cfg, ourId, inputs).tracker.begun <= LOOKUP_IDS
    ensures NoReuse(cfg, ourId, nextTx, inputs)
    decreases |inputs|
  {
    hide NoReuse, Step, Reuses, Begins, LookupsOk;
    if |inputs| == 0 {
      NothingReused(cfg, ourId, nextTx);
    } else {
      var front, last := inputs[..|inputs| - 1], inputs[|inputs| - 1];
      var s := Run(Initial(nextTx), cfg, ourId, front);
      StepBegun(s, cfg, ourId, last);
      ShortRuns(cfg, ourId, nextTx, front);
      RunKeeps(cfg, ourId, nextTx, front);
      ReuseBegins(s, cfg, last);
      if s.tracker.begun < LOOKUP_IDS {
        FewLookups(s, cfg, last);
      }
      NoReuseFront(cfg, ourId, nextTx, inputs);
    }
  }

  lemma ReuseBegins(s: State, cfg: Config, input: Input)
    ensures Reuses(s, cfg, input) ==> Begins(s, cfg, input)
  {
    hide ExpirePending;
  }

  lemma NothingReused(cfg: Config, ourId: NodeId, nextTx: Transaction)
    ensures NoReuse(cfg, ourId, nextTx, [])
  {
  }

  lemma FewLookups(s: State, cfg: Config, input: Input)
    requires LookupsOk(s, None, None) && s.tracker.begun < LOOKUP_IDS
    ensures !Reuses(s, cfg, input)
  {
    hide Fits, ExpirePending, Agrees;
    if input.DiscoveryTick? {
      ExpireKeeps(s, cfg, input.tick.order, input.now);
      var t := ExpirePending(s, cfg, input.tick.order, input.now).tracker;
      assert TrackerOk(t, None) by { TrackerOf(ExpirePending(s, cfg, input.tick.order, input.now)); }
      assert IdOf(t.begun) == t.begun;
      assert forall id | id in t.active :: IdOf(t.serials[id]) == t.serials[id];
    }
  }

  // ------------------------------------------------------------ the run that gets there

  /** One discovered hash and the tick that looks it up at one node, before any timeout. */
  function Turn(h: InfoHash, c: Contact, delivered: seq<bool>): seq<Input>
  {
    [Observe([h]), DiscoveryTick(Tick([], [c], h, []), 0, delivered)]
  }

  /** A lookup whose query is delivered, then n lookups whose query is not. */
  function Turns(h: InfoHash, c: Contact, n: nat): seq<Input>
    decreases n, c
  {
    if n == 0 then Turn(h, c, [true]) else Turns(h, c, n - 1) + Turn(h, c, [])
  }

  /** n + 1 lookups have begun, the first one is still active, and no pending RPC is due. */
  ghost predicate Waiting(s: State, n: nat)
  {
    && s.queue == [] && s.queued == {} && s.retired == map[]
    && s.tracker.begun == n + 1 && s.tracker.nextId == IdOf(n + 1)
    && IdOf(0) in s.tracker.active
    && forall tx | tx in s.pending :: s.pending[tx].deadline > 0
  }

  lemma RunTurn(s: State, cfg: Config, ourId: NodeId, before: seq<Input>, h: InfoHash, c: Contact, delivered: seq<bool>)
    ensures var t := Turn(h, c, delivered);
            && Run(s, cfg, ourId, before + t[..1]) == Step(Run(s, cfg, ourId, before), cfg, ourId, t[0])
            && Run(s, cfg, ourId, before + t) == Step(Run(s, cfg, ourId, before + t[..1]), cfg, ourId, t[1])
  {
    hide Step;
    var t := Turn(h, c, delivered);
    assert (before + t)[..|before| + 1] == before + t[..1] && (before + t[..1])[..|before|] == before;
  }

  /** The hash is queued, and the tick that follows takes it out again. */
  lemma Queued(s: State, cfg: Config, h: InfoHash)
    requires h != ZERO_ID && cfg.maxDiscovery >= 1 && s.queue == [] && s.queued == {}
    ensures QueueAll(s, cfg, [h]) == s.(queue := [h], queued := {h})
  {
    assert [h][..0] == [];
    assert QueueAll(s, cfg, []) == s;
  }

  lemma NothingDue(s: State, cfg: Config)
    requires s.retired == map[]
    ensures ExpirePending(s, cfg, [], 0) == s
  {
    assert StillRetired(s.retired, 0) == map[];
  }

  /** A tick with the hash queued is a lookup at the node. */
  lemma TickLooksUp(s: State, cfg: Config, ourId: NodeId, h: InfoHash, c: Contact, delivered: seq<bool>)
    requires s.queue == [h] && s.queued == {h} && s.retired == map[]
    ensures Step(s, cfg, ourId, Turn(h, c, delivered)[1]) == StartReal(s.(queue := [], queued := {}), cfg, h, [c], 0, delivered)
  {
    hide ExpirePending, StartReal;
    NothingDue(s, cfg);
    assert s.queue[1..] == [] && s.queued - {h} == {};
  }

  /** One node, one send. */
  lemma OneSend(s: State, cfg: Config, h: InfoHash, c: Contact, delivered: seq<bool>)
    ensures var id := s.tracker.nextId;
            var s1 := SendRpc(s.(tracker := Begin(s.tracker)), cfg, LookupRpc(h, c, Some(id), Lookup(s.tracker.begun)), 0, Flag(delivered, 0));
            StartReal(s, cfg, h, [c], 0, delivered) == s1.(tracker := Started(s1.tracker, id))
  {
    hide SendRpc, Started;
    var id := s.tracker.nextId;
    var rpcs := LookupRpcs(h, [c], Some(id), Lookup(s.tracker.begun));
    var b := s.(tracker := Begin(s.tracker));
    assert |rpcs| == 1 && rpcs[..0] == [] && rpcs[0] == LookupRpc(h, c, Some(id), Lookup(s.tracker.begun));
    assert SendAll(b, cfg, rpcs[..0], 0, delivered) == b;
    assert SendAll(b, cfg, rpcs, 0, delivered) == SendRpc(b, cfg, rpcs[0], 0, Flag(delivered, 0));
  }

  lemma FirstDelivered(s: State, cfg: Config, h: InfoHash, c: Contact)
    requires s.pending == map[] && s.retired == map[] && s.queue == [] && s.queued == {}
    requires s.tracker == INITIAL_TRACKER && cfg.maxPending >= 1 && cfg.rpcTimeout > 0
    ensures Waiting(StartReal(s, cfg, h, [c], 0, [true]), 0)
  {
    OneSend(s, cfg, h, c, [true]);
    hide StartReal;
    assert Allocate(s.(tracker := Begin(s.tracker)), cfg).0 == Some(s.nextTx);
  }

  lemma LaterDropped(s: State, cfg: Config, h: InfoHash, c: Contact, n: nat)
    requires Waiting(s, n) && n + 1 < LOOKUP_IDS
    ensures Waiting(StartReal(s, cfg, h, [c], 0, []), n + 1)
  {
    OneSend(s, cfg, h, c, []);
    hide StartReal, Allocate;
    NextNumber(n + 1);
    assert IdOf(n + 1) != IdOf(0);
  }

  /** As long as n is below 2^64, the first lookup is still active after n more. */
  lemma {:induction false} FirstWaits(cfg: Config, ourId: NodeId, nextTx: Transaction, h: InfoHash, c: Contact, n: nat)
    requires h != ZERO_ID && cfg.maxPending >= 1 && cfg.maxDiscovery >= 1 && cfg.rpcTimeout > 0 && n < LOOKUP_IDS
    ensures Waiting(Run(Initial(nextTx), cfg, ourId, Turns(h, c, n)), n)
  {
    hide Step, StartReal, Waiting, QueueAll;
    var s := Initial(nextTx);
    if n == 0 {
      assert Run(s, cfg, ourId, []) == s && [] + Turn(h, c, [true]) == Turn(h, c, [true]);
      TurnLooksUp(s, cfg, ourId, [], h, c, [true]);
      FirstDelivered(s, cfg, h, c);
    } else {
      FirstWaits(cfg, ourId, nextTx, h, c, n - 1);
      WaitingQueue(Run(s, cfg, ourId, Turns(h, c, n - 1)), n - 1);
      TurnLooksUp(s, cfg, ourId, Turns(h, c, n - 1), h, c, []);
      LaterDropped(Run(s, cfg, ourId, Turns(h, c, n - 1)), cfg, h, c, n - 1);
    }
  }

  lemma WaitingQueue(s: State, n: nat)
    requires Waiting(s, n)
    ensures s.queue == [] && s.queued == {} && s.retired == map[]
  {
  }

  lemma TurnLooksUp(s: State, cfg: Config, ourId: NodeId, before: seq<Input>, h: InfoHash, c: Contact, delivered: seq<bool>)
    requires h != ZERO_ID && cfg.maxDiscovery >= 1
    requires var t := Run(s, cfg, ourId, before); t.queue == [] && t.queued == {} && t.retired == map[]
    ensures Run(s, cfg, ourId, before + Turn(h, c, delivered)) == StartReal(Run(s, cfg, ourId, before), cfg, h, [c], 0, delivered)
  {
    hide StartReal, Run, QueueAll;
    RunTurn(s, cfg, ourId, before, h, c, delivered);
    var t := Run(s, cfg, ourId, before);
    Queued(t, cfg, h);
    var q := t.(queue := [h], queued := {h});
    assert Step(t, cfg, ourId, Turn(h, c, delivered)[0]) == q;
    TickLooksUp(q, cfg, ourId, h, c, delivered);
    assert q.(queue := [], queued := {}) == t;
  }

  /** After 2^64 lookups the id of the first one is the next, and the tick that begins one more gives it out
      again: there the accounting ends. */
  lemma ReuseReached(cfg: Config, ourId: NodeId, nextTx: Transaction, h: InfoHash, c: Contact)
    requires h != ZERO_ID && cfg.maxPending >= 1 && cfg.maxDiscovery >= 1 && cfg.rpcTimeout > 0
    ensures var inputs := Turns(h, c, LOOKUP_IDS);
            && !NoReuse(cfg, ourId, nextTx, inputs)
            && Run(Initial(nextTx), cfg, ourId, inputs).tracker.begun == LOOKUP_IDS + 1
            && !LookupsOk(Run(Initial(nextTx), cfg, ourId, inputs), None, None)
  {
    hide Run, Step, StartReal, Turns, LookupsOk, QueueAll;
    var n := LOOKUP_IDS - 1;
    TurnsNext(h, c, n);
    FirstWaits(cfg, ourId, nextTx, h, c, n);
    WaitsReused(cfg, ourId, nextTx, h, c, n);
  }

  lemma TurnsNext(h: InfoHash, c: Contact, n: nat)
    ensures Turns(h, c, n + 1) == Turns(h, c, n) + Turn(h, c, [])
  {
  }

  lemma WaitsReused(cfg: Config, ourId: NodeId, nextTx: Transaction, h: InfoHash, c: Contact, n: nat)
    requires h != ZERO_ID && cfg.maxDiscovery >= 1 && n + 1 == LOOKUP_IDS
    requires Waiting(Run(Initial(nextTx), cfg, ourId, Turns(h, c, n)), n)
    ensures var inputs := Turns(h, c, n) + Turn(h, c, []);
            && !NoReuse(cfg, ourId, nextTx, inputs)
            && Run(Initial(nextTx), cfg, ourId, inputs).tracker.begun == n + 2
            && !LookupsOk(Run(Initial(nextTx), cfg, ourId, inputs), None, None)
  {
    hide Run, Step, Turns, QueueAll, LookupsOk, StartReal, ExpirePending;
    var front, inputs := Turns(h, c, n) + Turn(h, c, [])[..1], Turns(h, c, n) + Turn(h, c, []);
    var t := Run(Initial(nextTx), cfg, ourId, Turns(h, c, n));
    RunTurn(Initial(nextTx), cfg, ourId, Turns(h, c, n), h, c, []);
    Queued(t, cfg, h);
    var q := t.(queue := [h], queued := {h});
    ObserveStep(t, cfg, ourId, h, c);
    assert Run(Initial(nextTx), cfg, ourId, front) == q;
    NothingDue(q, cfg);
    assert IdOf(n + 1) == IdOf(0);
    assert Reuses(q, cfg, Turn(h, c, [])[1]);
    assert inputs[..|inputs| - 1] == front && inputs[|inputs| - 1] == Turn(h, c, [])[1];
    NoReuseFront(cfg, ourId, nextTx, inputs);
    ShortRuns(cfg, ourId, nextTx, front);
    RunKeeps(cfg, ourId, nextTx, front);
    StepExactly(q, cfg, ourId, Turn(h, c, [])[1]);
    StepBegun(q, cfg, ourId, Turn(h, c, [])[1]);
  }

  lemma ObserveStep(s: State, cfg: Config, ourId: NodeId, h: InfoHash, c: Contact)
    ensures Step(s, cfg, ourId, Turn(h, c, [])[0]) == QueueAll(s, cfg, [h])
  {
  }
}
