/** What the handlers of the engine do to its tables, stated on the messages and the tables alone. */
module DhtEffects {
  import opened NodeIds
  import opened Net
  import opened Seqs
  import opened Sums
  import opened DhtState
  import opened DhtTables

  // ------------------------------------------------------------ who may answer

  /** The message carries the number of an RPC that is pending with its sender. */
  predicate Addressed(s: State, id: IncomingId, source: SocketAddr)
  {
    id.Ours? && id.tx in s.pending && s.pending[id.tx].rpc.addr == source
  }

  /** The response names the node that was asked, if one was, and has the fields its method calls for. */
  predicate Genuine(rpc: Rpc, m: Response)
  {
    && m.nodeId.Some? && (rpc.nodeId.Some? ==> m.nodeId.value == rpc.nodeId.value)
    && (rpc.kind == FindNode ==> m.nodes.Some?)
    && (rpc.kind == GetPeers ==> m.nodes.Some? || m.values.Some?)
    && (rpc.kind == SampleInfohashes ==> m.sampleShape)
  }

  /** The RPC is taken out, its number rests for one timeout, and its lookup loses it without peers. */
  ghost predicate Failed(s: State, s': State, cfg: Config, tx: Transaction, now: int)
  {
    && tx in s.pending
    && s' == s.(pending := s.pending - {tx}, retired := s.retired[tx := now + cfg.rpcTimeout], tracker := s'.tracker)
    && var id := s.pending[tx].rpc.lookupId;
       s'.tracker == if id.Some? then Complete(s.tracker, id.value, false) else s.tracker
  }

  /** A response that does not answer an RPC pending with its sender changes nothing; one that does, but comes
      from another node or lacks its fields, ends that RPC as a failure and does nothing else. */
  lemma ResponseRefused(s: State, cfg: Config, m: Response, source: SocketAddr, now: int, delivered: seq<bool>)
    ensures var s' := HandleResponse(s, cfg, m, source, now, delivered);
            && (!Addressed(s, m.id, source) ==> s' == s)
            && (Addressed(s, m.id, source) && !Genuine(s.pending[m.id.tx].rpc, m) ==> Failed(s, s', cfg, m.id.tx, now))
  {
    hide Answered, Complete;
  }

  /** Whatever a response sends, queues or counts as found peers, it does as the genuine answer to an RPC that was
      pending with its sender. */
  lemma OnlyGenuine(s: State, cfg: Config, m: Response, source: SocketAddr, now: int, delivered: seq<bool>)
    requires var s' := HandleResponse(s, cfg, m, source, now, delivered);
             || s'.queue != s.queue || s'.sent != s.sent || s'.nextTx != s.nextTx || s'.tracker.carried != s.tracker.carried
             || !(s'.pending.Keys <= s.pending.Keys)
    ensures Addressed(s, m.id, source) && Genuine(s.pending[m.id.tx].rpc, m)
  {
    ResponseRefused(s, cfg, m, source, now, delivered);
    hide HandleResponse, Genuine, Addressed;
  }

  /** An error message ends the RPC pending with its sender as a failure, and changes nothing otherwise. */
  lemma ErrorExact(s: State, cfg: Config, id: IncomingId, source: SocketAddr, now: int)
    ensures var s' := HandleError(s, cfg, id, source, now);
            && (!Addressed(s, id, source) ==> s' == s)
            && (Addressed(s, id, source) ==> Failed(s, s', cfg, id.tx, now))
  {
    hide Complete;
  }

  // ------------------------------------------------------------ what is sent

  /** Everything that was pending still is, and what is new is one of these RPCs, delivered, due after the timeout. */
  ghost predicate SentSome(s: State, s': State, cfg: Config, rpcs: seq<Rpc>, now: int, delivered: seq<bool>)
  {
    && (forall x | x in s.pending :: x in s'.pending && s'.pending[x] == s.pending[x])
    && (forall x | x in s'.pending && x !in s.pending :: IsSent(s'.pending[x], cfg, rpcs, now, delivered))
  }

  ghost predicate IsSent(p: Pending, cfg: Config, rpcs: seq<Rpc>, now: int, delivered: seq<bool>)
  {
    exists j :: 0 <= j < |rpcs| && Flag(delivered, j) && p == Pending(rpcs[j], now + cfg.rpcTimeout)
  }

  /** RPC j is pending under a number that was free. */
  ghost predicate NewlyPending(s: State, s': State, cfg: Config, rpc: Rpc, now: int)
  {
    exists x: Transaction :: x in s'.pending && x !in s.pending && x !in s.retired && s'.pending[x] == Pending(rpc, now + cfg.rpcTimeout)
  }

  /** There is a number and a place for n more RPCs. */
  predicate Room(s: State, cfg: Config, n: nat)
  {
    |s.pending| + n <= cfg.maxPending && |s.pending.Keys + s.retired.Keys| + n <= TRANSACTIONS
  }

  lemma {:induction false} AllTaken(used: set<Transaction>, n: nat)
    requires n <= TRANSACTIONS && forall k: nat | k < n :: k in used
    ensures |used| >= n
    decreases n, used
  {
    if n > 0 {
      AllTaken(used - {n - 1}, n - 1);
    }
  }

  lemma SomeFree(s: State)
    requires |s.pending.Keys + s.retired.Keys| < TRANSACTIONS
    ensures exists n: Transaction :: n !in Used(s)
  {
    if forall n: Transaction :: n in Used(s) {
      AllTaken(Used(s), TRANSACTIONS);
    }
  }

  /** One send: the RPC is pending under a number that was free, or nothing is pending that was not. */
  ghost predicate Arrived(s: State, s': State, cfg: Config, rpc: Rpc, now: int, x: Transaction)
  {
    x !in s.pending && x !in s.retired && s'.pending == s.pending[x := Pending(rpc, now + cfg.rpcTimeout)]
  }

  lemma SendOne(s: State, cfg: Config, rpc: Rpc, now: int, delivered: bool)
    ensures var s' := SendRpc(s, cfg, rpc, now, delivered);
            && s'.retired == s.retired && s'.queue == s.queue && s'.queued == s.queued
            && (s'.pending == s.pending || (delivered && exists x: Transaction :: Arrived(s, s', cfg, rpc, now, x)))
            && (delivered && Allocate(s, cfg).0.Some? ==> exists x: Transaction :: Arrived(s, s', cfg, rpc, now, x))
  {
    AllocateFresh(s, cfg);
    hide Allocate, FirstFree, Attach;
    var tx := Allocate(s, cfg).0;
    if tx.Some? && delivered {
      assert Arrived(s, SendRpc(s, cfg, rpc, now, delivered), cfg, rpc, now, tx.value);
    }
  }

  lemma SendArrives(s: State, cfg: Config, rpc: Rpc, now: int)
    requires Room(s, cfg, 1)
    ensures NewlyPending(s, SendRpc(s, cfg, rpc, now, true), cfg, rpc, now)
  {
    hide Allocate, FirstFree, SendRpc;
    AllocateExact(s, cfg);
    SomeFree(s);
    SendOne(s, cfg, rpc, now, true);
    var s' := SendRpc(s, cfg, rpc, now, true);
    var x: Transaction :| Arrived(s, s', cfg, rpc, now, x);
    assert x in s'.pending;
  }

  lemma ArrivedRoom(s: State, s': State, cfg: Config, rpc: Rpc, now: int, x: Transaction, n: nat)
    requires n >= 1 && Room(s, cfg, n) && Arrived(s, s', cfg, rpc, now, x) && s'.retired == s.retired
    ensures Room(s', cfg, n - 1)
  {
    KeysPlus(s.pending, x, Pending(rpc, now + cfg.rpcTimeout));
    assert s'.pending.Keys + s'.retired.Keys == s.pending.Keys + s.retired.Keys + {x};
  }

  lemma SendRoom(s: State, cfg: Config, rpc: Rpc, now: int, delivered: bool, n: nat)
    requires n >= 1 && Room(s, cfg, n)
    ensures Room(SendRpc(s, cfg, rpc, now, delivered), cfg, n - 1)
  {
    hide SendRpc, Arrived;
    SendOne(s, cfg, rpc, now, delivered);
    var s' := SendRpc(s, cfg, rpc, now, delivered);
    if s'.pending != s.pending {
      var x: Transaction :| Arrived(s, s', cfg, rpc, now, x);
      ArrivedRoom(s, s', cfg, rpc, now, x, n);
    }
  }

  /** The sends of a loop: nothing is pending afterwards that was neither pending nor sent. */
  lemma {:induction false} SendAllSends(s: State, cfg: Config, rpcs: seq<Rpc>, now: int, delivered: seq<bool>)
    ensures var s' := SendAll(s, cfg, rpcs, now, delivered);
            SentSome(s, s', cfg, rpcs, now, delivered) && s'.retired == s.retired && s'.queue == s.queue && s'.queued == s.queued
  {
    hide SendRpc;
    if |rpcs| > 0 {
      var last := |rpcs| - 1;
      SendAllSends(s, cfg, rpcs[..last], now, delivered);
      var s1 := SendAll(s, cfg, rpcs[..last], now, delivered);
      SendOne(s1, cfg, rpcs[last], now, Flag(delivered, last));
      var s' := SendRpc(s1, cfg, rpcs[last], now, Flag(delivered, last));
      forall x | x in s'.pending && x !in s.pending
        ensures IsSent(s'.pending[x], cfg, rpcs, now, delivered)
      {
        if x in s1.pending && s'.pending[x] == s1.pending[x] {
          SentLonger(s1.pending[x], cfg, rpcs, now, delivered);
        } else {
          assert s'.pending[x] == Pending(rpcs[last], now + cfg.rpcTimeout);
        }
      }
    }
  }

  lemma SentLonger(p: Pending, cfg: Config, rpcs: seq<Rpc>, now: int, delivered: seq<bool>)
    requires |rpcs| > 0 && IsSent(p, cfg, rpcs[..|rpcs| - 1], now, delivered)
    ensures IsSent(p, cfg, rpcs, now, delivered)
  {
    var front := rpcs[..|rpcs| - 1];
    var j :| 0 <= j < |front| && Flag(delivered, j) && p == Pending(front[j], now + cfg.rpcTimeout);
    assert front[j] == rpcs[j];
  }

  lemma StillPending(s: State, s1: State, s': State, cfg: Config, rpc: Rpc, last: Rpc, now: int, delivered: bool)
    requires NewlyPending(s, s1, cfg, rpc, now) && s' == SendRpc(s1, cfg, last, now, delivered)
    ensures NewlyPending(s, s', cfg, rpc, now)
  {
    hide SendRpc;
    SendOne(s1, cfg, last, now, delivered);
  }

  lemma PendingSooner(s: State, s1: State, s': State, cfg: Config, rpc: Rpc, now: int)
    requires NewlyPending(s1, s', cfg, rpc, now) && s1.retired == s.retired && forall x | x in s.pending :: x in s1.pending
    ensures NewlyPending(s, s', cfg, rpc, now)
  {
    var x: Transaction :| x in s'.pending && x !in s1.pending && x !in s1.retired && s'.pending[x] == Pending(rpc, now + cfg.rpcTimeout);
    assert x !in s.pending;
  }

  /** With room for all of them, each one that is delivered is pending afterwards under a number that was free. */
  lemma {:induction false} SendAllArrive(s: State, cfg: Config, rpcs: seq<Rpc>, now: int, delivered: seq<bool>, j: nat)
    requires Room(s, cfg, |rpcs|) && j < |rpcs| && Flag(delivered, j)
    ensures NewlyPending(s, SendAll(s, cfg, rpcs, now, delivered), cfg, rpcs[j], now)
  {
    hide SendRpc, Room, NewlyPending, IsSent;
    var last := |rpcs| - 1;
    var s1 := SendAll(s, cfg, rpcs[..last], now, delivered);
    if j == last {
      RoomLeft(s, cfg, rpcs[..last], now, delivered, |rpcs|);
      SendArrives(s1, cfg, rpcs[last], now);
      SendAllSends(s, cfg, rpcs[..last], now, delivered);
      PendingSooner(s, s1, SendAll(s, cfg, rpcs, now, delivered), cfg, rpcs[last], now);
    } else {
      RoomForLess(s, cfg, |rpcs|);
      SendAllArrive(s, cfg, rpcs[..last], now, delivered, j);
      StillPending(s, s1, SendAll(s, cfg, rpcs, now, delivered), cfg, rpcs[j], rpcs[last], now, Flag(delivered, last));
    }
  }

  lemma RoomForLess(s: State, cfg: Config, n: nat)
    requires n >= 1 && Room(s, cfg, n)
    ensures Room(s, cfg, n - 1)
  {
  }

  lemma {:induction false} RoomLeft(s: State, cfg: Config, rpcs: seq<Rpc>, now: int, delivered: seq<bool>, n: nat)
    requires |rpcs| <= n && Room(s, cfg, n)
    ensures Room(SendAll(s, cfg, rpcs, now, delivered), cfg, n - |rpcs|)
  {
    hide SendRpc, Room;
    if |rpcs| > 0 {
      var last := |rpcs| - 1;
      RoomLeft(s, cfg, rpcs[..last], now, delivered, n);
      SendRoom(SendAll(s, cfg, rpcs[..last], now, delivered), cfg, rpcs[last], now, Flag(delivered, last), n - last);
    }
  }

  // ------------------------------------------------------------ who is asked, and what

  /** These RPCs were sent one after another: what is new in the pending table is one of them, and each one the
      socket took is there when there was room for all. */
  ghost predicate Asked(s: State, s': State, cfg: Config, rpcs: seq<Rpc>, now: int, delivered: seq<bool>)
  {
    && s'.retired == s.retired
    && SentSome(s, s', cfg, rpcs, now, delivered)
    && (Room(s, cfg, |rpcs|) ==>
          forall j | 0 <= j < |rpcs| && Flag(delivered, j) :: NewlyPending(s, s', cfg, rpcs[j], now))
  }

  lemma SendAllAsks(s: State, cfg: Config, rpcs: seq<Rpc>, now: int, delivered: seq<bool>)
    ensures Asked(s, SendAll(s, cfg, rpcs, now, delivered), cfg, rpcs, now, delivered)
  {
    hide SendAll, Room, SentSome, NewlyPending;
    SendAllSends(s, cfg, rpcs, now, delivered);
    if Room(s, cfg, |rpcs|) {
      forall j | 0 <= j < |rpcs| && Flag(delivered, j)
        ensures NewlyPending(s, SendAll(s, cfg, rpcs, now, delivered), cfg, rpcs[j], now)
      {
        SendAllArrive(s, cfg, rpcs, now, delivered, j);
      }
    }
  }

  /** Asked looks at the pending and the retired table only. */
  lemma AskedTables(s: State, s': State, t: State, t': State, cfg: Config, rpcs: seq<Rpc>, now: int, delivered: seq<bool>)
    requires Asked(s, s', cfg, rpcs, now, delivered)
    requires t.pending == s.pending && t.retired == s.retired && t'.pending == s'.pending && t'.retired == s'.retired
    ensures Asked(t, t', cfg, rpcs, now, delivered)
  {
    hide IsSent;
    assert Room(t, cfg, |rpcs|) == Room(s, cfg, |rpcs|);
    forall j | 0 <= j < |rpcs| && NewlyPending(s, s', cfg, rpcs[j], now)
      ensures NewlyPending(t, t', cfg, rpcs[j], now)
    {
    }
  }

  /** The RPC with transaction tx is over: its number rests until one timeout from now. */
  function Ended(s: State, cfg: Config, tx: Transaction, now: int): State
  {
    s.(pending := s.pending - {tx}, retired := s.retired[tx := now + cfg.rpcTimeout])
  }

  /** The child asks the node what its parent asked, with one budget less. */
  predicate FollowsUp(child: Rpc, parent: Rpc, node: Contact)
  {
    && child.addr == node.addr && child.nodeId == Some(node.id) && child.kind == parent.kind
    && child.budget == parent.budget - 1 && child.root == parent.root
    && match parent.kind
       case FindNode => child.target == parent.target && child.infoHash == None && !child.isRealLookup && child.lookupId == None
       case _ => parent.infoHash == child.infoHash == Some(child.target)
                 && child.isRealLookup == parent.isRealLookup && child.lookupId == parent.lookupId
  }

  /** The first contacts of the response, four at most, are asked the parent's question. */
  ghost predicate Continued(s: State, s': State, cfg: Config, parent: Rpc, nodes: seq<Contact>, now: int,
                            delivered: seq<bool>, rpcs: seq<Rpc>)
  {
    && Asked(s, s', cfg, rpcs, now, delivered)
    && |rpcs| == (if parent.budget == 0 then 0 else if |nodes| < 4 then |nodes| else 4)
    && forall j | 0 <= j < |rpcs| :: FollowsUp(rpcs[j], parent, nodes[j])
  }

  lemma NothingAsked(s: State, s': State, cfg: Config, now: int, delivered: seq<bool>)
    requires s'.pending == s.pending && s'.retired == s.retired
    ensures Asked(s, s', cfg, [], now, delivered)
  {
  }

  /** RPCs of no lookup leave the tracker alone. */
  lemma {:induction false} SendsUntracked(s: State, cfg: Config, rpcs: seq<Rpc>, now: int, delivered: seq<bool>)
    requires forall j | 0 <= j < |rpcs| :: rpcs[j].lookupId.None?
    ensures SendAll(s, cfg, rpcs, now, delivered).tracker == s.tracker
  {
    hide Allocate;
    if |rpcs| > 0 {
      SendsUntracked(s, cfg, rpcs[..|rpcs| - 1], now, delivered);
    }
  }

  /** A genuine answer to find_node: its RPC ends, up to four of its contacts are asked next, and nothing else. */
  lemma FindNodeAnswer(s: State, cfg: Config, m: Response, source: SocketAddr, now: int, delivered: seq<bool>)
    requires Addressed(s, m.id, source) && Genuine(s.pending[m.id.tx].rpc, m) && s.pending[m.id.tx].rpc.kind == FindNode
    ensures var s' := HandleResponse(s, cfg, m, source, now, delivered);
            && s'.queue == s.queue && s'.queued == s.queued && s'.tracker == s.tracker
            && exists rpcs :: Continued(Ended(s, cfg, m.id.tx, now), s', cfg, s.pending[m.id.tx].rpc, m.nodes.value, now, delivered, rpcs)
  {
    hide SendAll, Asked;
    var parent := s.pending[m.id.tx].rpc;
    var s1 := Ended(s, cfg, m.id.tx, now);
    var s' := HandleResponse(s, cfg, m, source, now, delivered);
    if parent.budget == 0 {
      NothingAsked(s1, s', cfg, now, delivered);
      assert Continued(s1, s', cfg, parent, m.nodes.value, now, delivered, []);
    } else {
      var rpcs := FindNodeChildren(parent, Take(m.nodes.value, LOOKUP_CONTINUATION_FANOUT));
      SendAllSends(s1, cfg, rpcs, now, delivered);
      SendAllAsks(s1, cfg, rpcs, now, delivered);
      SendsUntracked(s1, cfg, rpcs, now, delivered);
      assert Continued(s1, s', cfg, parent, m.nodes.value, now, delivered, rpcs);
    }
  }

  /** One hash is put last in the discovery queue, unless it is zero or queued already or there is no room. */
  ghost predicate QueuedLast(s: State, s': State, cfg: Config, hash: InfoHash)
  {
    if hash == ZERO_ID || hash in s.queued || |s.queue| >= cfg.maxDiscovery then
      s'.queue == s.queue && s'.queued == s.queued
    else
      s'.queue == s.queue + [hash] && s'.queued == s.queued + {hash}
  }

  lemma QueueHashLast(s: State, cfg: Config, hash: InfoHash)
    ensures var s' := QueueHash(s, cfg, hash);
            QueuedLast(s, s', cfg, hash) && s'.pending == s.pending && s'.retired == s.retired && s'.tracker == s.tracker
  {
  }

  /** A genuine answer to get_peers for a hash: the hash is queued if there are peers or the lookup is a real one,
      and up to four of its contacts are asked next under the same lookup. */
  lemma GetPeersAnswer(s: State, cfg: Config, m: Response, source: SocketAddr, now: int, delivered: seq<bool>)
    requires Addressed(s, m.id, source) && Genuine(s.pending[m.id.tx].rpc, m)
    requires s.pending[m.id.tx].rpc.kind == GetPeers && s.pending[m.id.tx].rpc.infoHash.Some?
    ensures var s' := HandleResponse(s, cfg, m, source, now, delivered);
            var parent := s.pending[m.id.tx].rpc;
            var nodes := if m.nodes.Some? then m.nodes.value else [];
            && (if (m.values.Some? && |m.values.value| > 0) || parent.isRealLookup then QueuedLast(s, s', cfg, parent.infoHash.value)
                else s'.queue == s.queue && s'.queued == s.queued)
            && exists rpcs :: Continued(Ended(s, cfg, m.id.tx, now), s', cfg, parent, nodes, now, delivered, rpcs)
  {
    hide ContinueGetPeers, QueuedLast, QueueHash, Complete, Continued;
    var parent := s.pending[m.id.tx].rpc;
    var hash := parent.infoHash.value;
    var s1 := Ended(s, cfg, m.id.tx, now);
    var s2 := if Peers(m) != [] || parent.isRealLookup then QueueHash(s1, cfg, hash) else s1;
    var s3 := ContinueGetPeers(s2, cfg, hash, Nodes(m), parent, now, delivered);
    QueueHashLast(s1, cfg, hash);
    GetPeersContinues(s1, s2, cfg, parent, hash, Nodes(m), now, delivered);
    var rpcs :| Continued(s1, s3, cfg, parent, Nodes(m), now, delivered, rpcs);
    var s' := HandleResponse(s, cfg, m, source, now, delivered);
    ContinuedSame(s1, s3, s', cfg, parent, Nodes(m), now, delivered, rpcs);
    if Peers(m) != [] || parent.isRealLookup {
      QueuedSame(s1, s2, s, s', cfg, hash);
    }
  }

  lemma ContinuedSame(s: State, s': State, t': State, cfg: Config, parent: Rpc, nodes: seq<Contact>, now: int,
                      delivered: seq<bool>, rpcs: seq<Rpc>)
    requires Continued(s, s', cfg, parent, nodes, now, delivered, rpcs)
    requires t'.pending == s'.pending && t'.retired == s'.retired
    ensures Continued(s, t', cfg, parent, nodes, now, delivered, rpcs)
  {
    hide Asked, FollowsUp;
    AskedTables(s, s', s, t', cfg, rpcs, now, delivered);
  }

  lemma GetPeersContinues(s: State, s2: State, cfg: Config, parent: Rpc, hash: InfoHash, nodes: seq<Contact>, now: int,
                          delivered: seq<bool>)
    requires parent.kind == GetPeers && parent.infoHash == Some(hash)
    requires s2.pending == s.pending && s2.retired == s.retired
    ensures var s' := ContinueGetPeers(s2, cfg, hash, nodes, parent, now, delivered);
            && s'.queue == s2.queue && s'.queued == s2.queued
            && exists rpcs :: Continued(s, s', cfg, parent, nodes, now, delivered, rpcs)
  {
    hide SendAll, Asked;
    var s' := ContinueGetPeers(s2, cfg, hash, nodes, parent, now, delivered);
    if parent.budget == 0 {
      NothingAsked(s, s', cfg, now, delivered);
      assert Continued(s, s', cfg, parent, nodes, now, delivered, []);
    } else {
      var rpcs := GetPeersChildren(parent, hash, Take(nodes, LOOKUP_CONTINUATION_FANOUT));
      SendAllSends(s2, cfg, rpcs, now, delivered);
      SendAllAsks(s2, cfg, rpcs, now, delivered);
      AskedTables(s2, s', s, s', cfg, rpcs, now, delivered);
      assert Continued(s, s', cfg, parent, nodes, now, delivered, rpcs);
    }
  }

  lemma QueuedSame(s: State, s': State, t: State, t': State, cfg: Config, hash: InfoHash)
    requires QueuedLast(s, s', cfg, hash)
    requires t.queue == s.queue && t.queued == s.queued && t'.queue == s'.queue && t'.queued == s'.queued
    ensures QueuedLast(t, t', cfg, hash)
  {
  }

  // ------------------------------------------------------------ what is queued

  /** The queue keeps what it has, in order, and gains some of these hashes, none of them zero; all of them, unless
      it is full. */
  ghost predicate Gained(s: State, s': State, cfg: Config, hashes: set<InfoHash>)
  {
    && s.queue <= s'.queue && s.queued <= s'.queued
    && (forall h | h in s'.queued && h !in s.queued :: h in hashes && h != ZERO_ID)
    && (forall h | h in s'.queue && h !in s.queue :: h in s'.queued && h !in s.queued)
    && (forall h | h in hashes && h != ZERO_ID :: h in s'.queued || |s'.queue| >= cfg.maxDiscovery)
  }

  lemma GainedOne(s: State, s': State, cfg: Config, hash: InfoHash)
    requires QueuedLast(s, s', cfg, hash)
    ensures Gained(s, s', cfg, {hash})
  {
  }

  lemma GainedNone(s: State, s': State, cfg: Config)
    requires s'.queue == s.queue && s'.queued == s.queued
    ensures Gained(s, s', cfg, {})
  {
  }

  lemma GainedThen(s: State, s1: State, s': State, cfg: Config, first: set<InfoHash>, second: set<InfoHash>)
    requires Gained(s, s1, cfg, first) && Gained(s1, s', cfg, second)
    ensures Gained(s, s', cfg, first + second)
  {
  }

  /** The hashes of a sample, or of a get_peers query, in their order. */
  lemma {:induction false} QueueAllGains(s: State, cfg: Config, hashes: seq<InfoHash>)
    ensures var s' := QueueAll(s, cfg, hashes);
            && Gained(s, s', cfg, SetOf(hashes))
            && s'.pending == s.pending && s'.retired == s.retired && s'.tracker == s.tracker
  {
    hide QueueHash, QueuedLast, Gained;
    if |hashes| == 0 {
      GainedNone(s, s, cfg);
      assert SetOf(hashes) == {};
    } else {
      var front, hash := hashes[..|hashes| - 1], hashes[|hashes| - 1];
      var s1 := QueueAll(s, cfg, front);
      QueueAllGains(s, cfg, front);
      QueueHashLast(s1, cfg, hash);
      GainedOne(s1, QueueHash(s1, cfg, hash), cfg, hash);
      GainedThen(s, s1, QueueHash(s1, cfg, hash), cfg, SetOf(front), {hash});
      assert hashes == front + [hash];
      assert SetOf(hashes) == SetOf(front) + {hash};
    }
  }

  /** A genuine answer to sample_infohashes: its RPC ends and its samples are queued; nobody is asked. */
  lemma SampleAnswer(s: State, cfg: Config, m: Response, source: SocketAddr, now: int, delivered: seq<bool>)
    requires Addressed(s, m.id, source) && Genuine(s.pending[m.id.tx].rpc, m) && s.pending[m.id.tx].rpc.kind == SampleInfohashes
    ensures var s' := HandleResponse(s, cfg, m, source, now, delivered);
            var s1 := Ended(s, cfg, m.id.tx, now);
            && s'.pending == s1.pending && s'.retired == s1.retired && s'.tracker == s.tracker
            && Gained(s, s', cfg, if m.samples.Some? then SetOf(m.samples.value) else {})
  {
    hide QueueAll, Gained;
    var s1 := Ended(s, cfg, m.id.tx, now);
    var s' := HandleResponse(s, cfg, m, source, now, delivered);
    var hashes := if m.samples.Some? then SetOf(m.samples.value) else {};
    if m.samples.Some? {
      QueueAllGains(s1, cfg, m.samples.value);
    } else {
      GainedNone(s1, s', cfg);
    }
    GainedSame(s1, s', s, s', cfg, hashes);
  }

  lemma GainedSame(s: State, s': State, t: State, t': State, cfg: Config, hashes: set<InfoHash>)
    requires Gained(s, s', cfg, hashes)
    requires t.queue == s.queue && t.queued == s.queued && t'.queue == s'.queue && t'.queued == s'.queued
    ensures Gained(t, t', cfg, hashes)
  {
  }

  // ------------------------------------------------------------ expiry

  /** The hash to look for again when this RPC gets no answer. */
  function SoughtBy(p: Pending): set<InfoHash>
  {
    if p.rpc.isRealLookup && p.rpc.infoHash.Some? then {p.rpc.infoHash.value} else {}
  }

  function SoughtByAll(pending: map<Transaction, Pending>, order: seq<Transaction>): set<InfoHash>
  {
    set x, h | x in order && x in pending && h in SoughtBy(pending[x]) :: h
  }

  lemma ExpireOneExact(s: State, cfg: Config, tx: Transaction, now: int)
    requires tx in s.pending
    ensures var s' := ExpireOne(s, cfg, tx, now);
            && s'.pending == s.pending - {tx} && s'.retired == s.retired[tx := now + cfg.rpcTimeout]
            && Gained(s, s', cfg, SoughtBy(s.pending[tx]))
  {
    hide QueueHash, QueuedLast, Gained, Complete;
    var rpc := s.pending[tx].rpc;
    var s1 := Retire(s, tx, now + cfg.rpcTimeout);
    var s' := ExpireOne(s, cfg, tx, now);
    if rpc.isRealLookup && rpc.infoHash.Some? {
      QueueHashLast(s1, cfg, rpc.infoHash.value);
      GainedOne(s1, QueueHash(s1, cfg, rpc.infoHash.value), cfg, rpc.infoHash.value);
      GainedSame(s1, QueueHash(s1, cfg, rpc.infoHash.value), s, s', cfg, SoughtBy(s.pending[tx]));
    } else {
      GainedNone(s, s', cfg);
    }
  }

  /** The numbers of the expired RPCs rest until one timeout from now; those that rested before do so still if their
      time has not come. */
  ghost predicate Rested(s: State, s': State, cfg: Config, order: seq<Transaction>, now: int)
  {
    forall x: Transaction :: if x in order && x in s.pending then x in s'.retired && s'.retired[x] == now + cfg.rpcTimeout
                             else if x in s.retired && s.retired[x] > now then x in s'.retired && s'.retired[x] == s.retired[x]
                             else x !in s'.retired
  }

  lemma RestedOne(s: State, s1: State, s': State, cfg: Config, order: seq<Transaction>, tx: Transaction, now: int)
    requires Rested(s, s1, cfg, order, now) && tx in s.pending && s'.retired == s1.retired[tx := now + cfg.rpcTimeout]
    ensures Rested(s, s', cfg, order + [tx], now)
  {
  }

  lemma RestedSame(s: State, s1: State, cfg: Config, order: seq<Transaction>, tx: Transaction, now: int)
    requires Rested(s, s1, cfg, order, now) && (tx in order || tx !in s.pending)
    ensures Rested(s, s1, cfg, order + [tx], now)
  {
  }

  lemma SoughtByMore(pending: map<Transaction, Pending>, order: seq<Transaction>, tx: Transaction)
    ensures SoughtByAll(pending, order + [tx]) ==
            SoughtByAll(pending, order) + if tx in pending then SoughtBy(pending[tx]) else {}
  {
    hide SoughtBy;
  }

  lemma SoughtByNone(pending: map<Transaction, Pending>)
    ensures SoughtByAll(pending, []) == {}
  {
  }

  lemma SoughtAgain(pending: map<Transaction, Pending>, order: seq<Transaction>, tx: Transaction)
    requires tx in order || tx !in pending
    ensures SoughtByAll(pending, order + [tx]) == SoughtByAll(pending, order)
  {
    hide SoughtBy;
  }

  /** A timeout takes the expired RPCs out, lets their numbers rest, and queues the hashes that real lookups among
      them sought. */
  lemma {:induction false} ExpiryExact(s: State, cfg: Config, order: seq<Transaction>, now: int)
    ensures var s' := ExpirePending(s, cfg, order, now);
            && s'.pending == s.pending - SetOf(order)
            && Rested(s, s', cfg, order, now)
            && Gained(s, s', cfg, SoughtByAll(s.pending, order))
  {
    hide ExpireOne, Gained, SoughtByAll, SoughtBy;
    if |order| == 0 {
      GainedNone(s, DropReusable(s, now), cfg);
      SoughtByNone(s.pending);
      assert SetOf(order) == {};
    } else {
      hide Rested;
      var front, tx := order[..|order| - 1], order[|order| - 1];
      var s1 := ExpirePending(s, cfg, front, now);
      ExpiryExact(s, cfg, front, now);
      assert order == front + [tx];
      assert SetOf(order) == SetOf(front) + {tx};
      assert tx in front <==> tx in SetOf(front);
      if tx in s1.pending {
        ExpireOneExact(s1, cfg, tx, now);
        RestedOne(s, s1, ExpireOne(s1, cfg, tx, now), cfg, front, tx, now);
        SoughtByMore(s.pending, front, tx);
        GainedThen(s, s1, ExpireOne(s1, cfg, tx, now), cfg, SoughtByAll(s.pending, front), SoughtBy(s.pending[tx]));
      } else {
        ExpireNothing(s1, cfg, tx, now);
        RestedSame(s, s1, cfg, front, tx, now);
        SoughtAgain(s.pending, front, tx);
      }
    }
  }

  lemma ExpireNothing(s: State, cfg: Config, tx: Transaction, now: int)
    requires tx !in s.pending
    ensures ExpireOne(s, cfg, tx, now) == s
  {
  }

  // ------------------------------------------------------------ discovery, bootstrap and sampling

  /** These RPCs ask those contacts for the peers of a hash, each with a budget of two. */
  predicate Lookups(rpcs: seq<Rpc>, nodes: seq<Contact>, hash: InfoHash, lookupId: Option<LookupId>)
  {
    |rpcs| == |nodes| &&
    forall j | 0 <= j < |rpcs| ::
      && rpcs[j].addr == nodes[j].addr && rpcs[j].nodeId == Some(nodes[j].id) && rpcs[j].kind == GetPeers
      && rpcs[j].target == hash && rpcs[j].infoHash == Some(hash) && rpcs[j].budget == 2
      && rpcs[j].lookupId == lookupId && (rpcs[j].isRealLookup <==> lookupId.Some?)
  }

  /** These RPCs ask those addresses for the nodes nearest to us, each with a budget of two. */
  predicate Bootstraps(rpcs: seq<Rpc>, addrs: seq<SocketAddr>, ourId: NodeId)
  {
    |rpcs| == |addrs| &&
    forall j | 0 <= j < |rpcs| ::
      && rpcs[j].addr == addrs[j] && rpcs[j].nodeId == None && rpcs[j].kind == FindNode && rpcs[j].target == ourId
      && rpcs[j].infoHash == None && rpcs[j].budget == 2 && rpcs[j].lookupId == None && !rpcs[j].isRealLookup
  }

  /** These RPCs ask those nodes for samples, each with a target of its own and nothing to follow. */
  predicate Samplings(rpcs: seq<Rpc>, probes: seq<(Contact, NodeId)>)
  {
    |rpcs| == |probes| &&
    forall j | 0 <= j < |rpcs| ::
      && rpcs[j].addr == probes[j].0.addr && rpcs[j].nodeId == Some(probes[j].0.id) && rpcs[j].kind == SampleInfohashes
      && rpcs[j].target == probes[j].1 && rpcs[j].infoHash == None && rpcs[j].budget == 0
      && rpcs[j].lookupId == None && !rpcs[j].isRealLookup
  }

  /** A tick with a hash in the queue and nodes to ask: the first hash leaves the queue and every node is asked for
      its peers, under the id the lookup gets. */
  lemma RealLookupAsks(s: State, cfg: Config, ourId: NodeId, tick: Tick, now: int, delivered: seq<bool>)
    requires ExpirePending(s, cfg, tick.order, now).queue != [] && tick.nodes != []
    ensures var s0 := ExpirePending(s, cfg, tick.order, now);
            var s' := Discover(s, cfg, ourId, tick, now, delivered);
            && s'.queue == s0.queue[1..] && s'.queued == s0.queued - {s0.queue[0]}
            && exists rpcs :: Asked(s0, s', cfg, rpcs, now, delivered)
                              && Lookups(rpcs, tick.nodes, s0.queue[0], Some(s0.tracker.nextId))
  {
    hide SendAll, Asked, ExpirePending, Started;
    var s0 := ExpirePending(s, cfg, tick.order, now);
    var hash, id := s0.queue[0], s0.tracker.nextId;
    var s1 := s0.(queue := s0.queue[1..], queued := s0.queued - {hash}, tracker := Begin(s0.tracker));
    var rpcs := LookupRpcs(hash, tick.nodes, Some(id), Lookup(s0.tracker.begun));
    var s2 := SendAll(s1, cfg, rpcs, now, delivered);
    var s' := Discover(s, cfg, ourId, tick, now, delivered);
    SendAllSends(s1, cfg, rpcs, now, delivered);
    SendAllAsks(s1, cfg, rpcs, now, delivered);
    AskedTables(s1, s2, s0, s', cfg, rpcs, now, delivered);
    assert Lookups(rpcs, tick.nodes, hash, Some(id));
  }

  /** Every bootstrap address is asked; nothing else changes. */
  lemma BootstrapAsks(s: State, cfg: Config, ourId: NodeId, addrs: seq<SocketAddr>, now: int, delivered: seq<bool>)
    ensures var s' := RunBootstrap(s, cfg, ourId, addrs, now, delivered);
            && s'.queue == s.queue && s'.queued == s.queued && s'.tracker == s.tracker
            && exists rpcs :: Asked(s, s', cfg, rpcs, now, delivered) && Bootstraps(rpcs, addrs, ourId)
  {
    hide SendAll, Asked;
    var s1 := s.(nextProbe := s.nextProbe + |addrs|);
    var rpcs := BootstrapRpcs(ourId, addrs, s.nextProbe);
    var s' := SendAll(s1, cfg, rpcs, now, delivered);
    SendAllSends(s1, cfg, rpcs, now, delivered);
    SendAllAsks(s1, cfg, rpcs, now, delivered);
    SendsUntracked(s1, cfg, rpcs, now, delivered);
    AskedTables(s1, s', s, s', cfg, rpcs, now, delivered);
    assert Bootstraps(rpcs, addrs, ourId);
  }

  /** A tick with a hash but nobody to ask: the hash goes back, last, and the bootstrap contacts are asked. */
  lemma WithoutNodesBootstraps(s: State, cfg: Config, ourId: NodeId, tick: Tick, now: int, delivered: seq<bool>)
    requires tick.nodes == []
    requires TablesOk(ExpirePending(s, cfg, tick.order, now), cfg)
    ensures var s0 := ExpirePending(s, cfg, tick.order, now);
            var s' := Discover(s, cfg, ourId, tick, now, delivered);
            && s'.queue == (if s0.queue == [] then [] else s0.queue[1..] + [s0.queue[0]]) && s'.queued == s0.queued
            && s'.tracker == s0.tracker
            && exists rpcs :: Asked(s0, s', cfg, rpcs, now, delivered) && Bootstraps(rpcs, tick.bootstrap, ourId)
  {
    hide Asked, ExpirePending, QueueHash, RunBootstrap, Bootstraps;
    var s0 := ExpirePending(s, cfg, tick.order, now);
    var s1 := s0;
    if s0.queue != [] {
      var popped := s0.(queue := s0.queue[1..], queued := s0.queued - {s0.queue[0]});
      PoppedBack(s0, popped, cfg);
      s1 := QueueHash(popped, cfg, s0.queue[0]);
    }
    BootstrapAsks(s1, cfg, ourId, tick.bootstrap, now, delivered);
    var s' := Discover(s, cfg, ourId, tick, now, delivered);
    var rpcs :| Asked(s1, s', cfg, rpcs, now, delivered) && Bootstraps(rpcs, tick.bootstrap, ourId);
    AskedTables(s1, s', s0, s', cfg, rpcs, now, delivered);
  }

  /** Taken from the front of a queue that is in order, a hash has room at its end. */
  lemma PoppedBack(s: State, s1: State, cfg: Config)
    requires TablesOk(s, cfg) && s.queue != []
    requires s1 == s.(queue := s.queue[1..], queued := s.queued - {s.queue[0]})
    ensures QueueHash(s1, cfg, s.queue[0]) == s.(queue := s.queue[1..] + [s.queue[0]])
  {
    assert s.queue[0] in s.queue;
    assert s1.queued + {s.queue[0]} == s.queued;
  }

  /** A tick with an empty queue: every node is asked for the peers of a random id, as nobody's lookup. */
  lemma RandomLookupAsks(s: State, cfg: Config, ourId: NodeId, tick: Tick, now: int, delivered: seq<bool>)
    requires ExpirePending(s, cfg, tick.order, now).queue == [] && tick.nodes != []
    ensures var s0 := ExpirePending(s, cfg, tick.order, now);
            var s' := Discover(s, cfg, ourId, tick, now, delivered);
            && s'.queue == [] && s'.queued == s0.queued && s'.tracker == s0.tracker
            && exists rpcs :: Asked(s0, s', cfg, rpcs, now, delivered) && Lookups(rpcs, tick.nodes, tick.randomId, None)
  {
    hide SendAll, Asked, ExpirePending;
    var s0 := ExpirePending(s, cfg, tick.order, now);
    var s1 := s0.(nextProbe := s0.nextProbe + 1);
    var rpcs := LookupRpcs(tick.randomId, tick.nodes, None, RandomLookup(s0.nextProbe));
    var s' := SendAll(s1, cfg, rpcs, now, delivered);
    assert s' == Discover(s, cfg, ourId, tick, now, delivered);
    SendAllSends(s1, cfg, rpcs, now, delivered);
    SendAllAsks(s1, cfg, rpcs, now, delivered);
    SendsUntracked(s1, cfg, rpcs, now, delivered);
    AskedTables(s1, s', s0, s', cfg, rpcs, now, delivered);
    assert Lookups(rpcs, tick.nodes, tick.randomId, None);
  }

  /** A sampling tick asks every node it picked and changes nothing else. */
  lemma SamplingAsks(s: State, cfg: Config, probes: seq<(Contact, NodeId)>, now: int, delivered: seq<bool>)
    ensures var s' := RunSampling(s, cfg, probes, now, delivered);
            && s'.queue == s.queue && s'.queued == s.queued && s'.tracker == s.tracker
            && exists rpcs :: Asked(s, s', cfg, rpcs, now, delivered) && Samplings(rpcs, probes)
  {
    hide SendAll, Asked;
    var s1 := s.(nextProbe := s.nextProbe + |probes|);
    var rpcs := SampleRpcs(probes, s.nextProbe);
    var s' := SendAll(s1, cfg, rpcs, now, delivered);
    SendAllSends(s1, cfg, rpcs, now, delivered);
    SendAllAsks(s1, cfg, rpcs, now, delivered);
    SendsUntracked(s1, cfg, rpcs, now, delivered);
    AskedTables(s1, s', s, s', cfg, rpcs, now, delivered);
    assert Samplings(rpcs, probes);
  }
}
