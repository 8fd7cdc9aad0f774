/** Runs of the engine object: what holds of its tables and counters after any sequence of inputs. */
module DhtRuns {
  import opened NodeIds
  import opened DhtState
  import opened DhtLookups
  import opened DhtBudget
  import opened DhtTables
  import opened DhtEngine

  /** One turn of the engine's loop. The input handled is the one given, with the order in which the expired
      transactions came out of the map. */
  method HandleInput(c: DhtCrawler, input: Input) returns (ghost handled: Input)
    modifies c, c.lookups
    ensures c.View() == Step(old(c.View()), c.cfg, c.ourId, handled)
  {
    hide HandleResponse, HandleError, QueueAll, ExpirePending, Discover, RunSampling, RunBootstrap;
    handled := input;
    match input {
      case Answer(message, source, now, delivered) =>
        c.OnResponse(message, source, now, delivered);
      case Error(id, source, now) =>
        c.OnError(id, source, now);
      case Observe(hashes) =>
        c.EnqueueAll(hashes);
      case Refresh(_, now) =>
        ghost var order := c.ExpirePendingRpcs(now);
        handled := Refresh(order, now);
      case DiscoveryTick(tick, now, delivered) =>
        ghost var order := c.DiscoverPeers(tick.nodes, tick.randomId, tick.bootstrap, now, delivered);
        handled := DiscoveryTick(Tick(order, tick.nodes, tick.randomId, tick.bootstrap), now, delivered);
      case SamplingTick(probes, now, delivered) =>
        c.SampleNodes(probes, now, delivered);
      case BootstrapAll(addrs, now, delivered) =>
        c.BootstrapFrom(addrs, now, delivered);
    }
  }

  /** After any inputs, on the engine's own fields: the tables are sound, no lookup has sent more than 168 RPCs,
      and lookups are accounted for unless one began under an id still in use. */
  method RunCrawler(cfg: Config, ourId: NodeId, nextTx: Transaction, inputs: seq<Input>) returns (c: DhtCrawler, ghost handled: seq<Input>)
    ensures fresh(c) && fresh(c.lookups)
    ensures |handled| == |inputs| && c.View() == Run(Initial(nextTx), cfg, ourId, handled)
    ensures NoReuse(cfg, ourId, nextTx, handled) ==>
              && c.lookups.initiatedCount == c.lookups.succeededCount + c.lookups.failedCount + |c.lookups.active|
              && (forall id | id in c.lookups.active ::
                    c.lookups.active[id].outstanding > 0 && c.lookups.active[id].outstanding == Outstanding(c.pendingRpcs, id))
              && (forall tx | tx in c.pendingRpcs && c.pendingRpcs[tx].rpc.lookupId.Some? ::
                    c.pendingRpcs[tx].rpc.lookupId.value in c.lookups.active)
    ensures c.pendingRpcs.Keys !! c.retired.Keys && |c.pendingRpcs| <= cfg.maxPending
    ensures forall n | Lookup(n) in c.sent :: c.sent[Lookup(n)] <= 168
  {
    hide Step, TablesOk, NoReuse;
    c := new DhtCrawler(cfg, ourId, nextTx);
    handled := [];
    var i := 0;
    while i < |inputs|
      invariant 0 <= i <= |inputs| && |handled| == i && fresh(c) && fresh(c.lookups)
      invariant c.cfg == cfg && c.ourId == ourId
      invariant c.View() == Run(Initial(nextTx), cfg, ourId, handled)
    {
      ghost var h := HandleInput(c, inputs[i]);
      assert (handled + [h])[..i] == handled;
      handled := handled + [h];
      i := i + 1;
    }
    if NoReuse(cfg, ourId, nextTx, handled) {
      LookupAccounting(cfg, ourId, nextTx, handled);
    }
    RunTables(cfg, ourId, nextTx, handled);
    TablesFacts(c.View(), cfg);
    forall n | Lookup(n) in c.sent
      ensures c.sent[Lookup(n)] <= 168
    {
      RpcBounds(cfg, ourId, nextTx, handled, n, 0);
    }
  }

  lemma TablesFacts(s: State, cfg: Config)
    requires TablesOk(s, cfg)
    ensures s.pending.Keys !! s.retired.Keys && |s.pending| <= cfg.maxPending
  {
  }
}
