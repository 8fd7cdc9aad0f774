/** The peer rows of one hash job: what a persisted discovery does to them, and what it reports. */
module PeerRows {
  import opened Net
  import opened Seqs
  import opened HashJobs

  const CHUNK: nat := 128

  /** ORDER BY last_seen DESC, peer_addr: every row once, the most recent first. */
  ghost predicate MostRecentFirst(query: map<SocketAddr, int> -> seq<SocketAddr>)
  {
    forall rows :: Listed(rows, query(rows))
  }

  ghost predicate Listed(rows: map<SocketAddr, int>, list: seq<SocketAddr>)
  {
    && NoDup(list) && SetOf(list) == rows.Keys
    && (forall i, j | 0 <= i < j < |list| :: list[i] in rows && list[j] in rows && rows[list[i]] >= rows[list[j]])
  }

  /** INSERT ... ON DUPLICATE KEY UPDATE last_seen. */
  function Touched(rows: map<SocketAddr, int>, addresses: seq<SocketAddr>, now: int): map<SocketAddr, int>
  {
    rows + map a | a in SetOf(addresses) :: now
  }

  function Known(rows: map<SocketAddr, int>, addresses: seq<SocketAddr>): nat
  {
    |SetOf(addresses) * rows.Keys|
  }

  /** Row by row: those of the addresses are from now, the others as they were. */
  lemma TouchedExact(rows: map<SocketAddr, int>, addresses: seq<SocketAddr>, now: int, a: SocketAddr)
    ensures var touched := Touched(rows, addresses, now);
            && (a in touched <==> a in rows || a in addresses)
            && (a in touched ==> touched[a] == if a in addresses then now else rows[a])
  {
  }

  lemma TouchedSize(rows: map<SocketAddr, int>, addresses: seq<SocketAddr>, now: int)
    requires NoDup(addresses)
    ensures Known(rows, addresses) <= |addresses|
    ensures |Touched(rows, addresses, now)| == |rows| + |addresses| - Known(rows, addresses)
  {
    var c, k := SetOf(addresses), rows.Keys;
    NoDupSize(addresses);
    assert Touched(rows, addresses, now).Keys == k + c;
    assert |k + c| == |k| + |c| - |c * k| by {
      assert k + c == k + (c - k);
      assert c == (c - k) + (c * k);
    }
    assert |Touched(rows, addresses, now)| == |Touched(rows, addresses, now).Keys| && |rows| == |k|;
  }

  /** Touching chunk after chunk is touching all, and the counts add up. */
  lemma TouchedMore(rows: map<SocketAddr, int>, a: seq<SocketAddr>, b: seq<SocketAddr>, now: int)
    requires NoDup(a + b)
    ensures Touched(Touched(rows, a, now), b, now) == Touched(rows, a + b, now)
    ensures NoDup(a) && NoDup(b) && Known(Touched(rows, a, now), b) == Known(rows, b)
    ensures Known(rows, a + b) == Known(rows, a) + Known(rows, b)
  {
    hide NoDup, SetOf;
    NoDupSplit(a, b);
    TouchedTwice(rows, a, b, now);
    KnownAdds(rows, a, b, now);
  }

  lemma TouchedTwice(rows: map<SocketAddr, int>, a: seq<SocketAddr>, b: seq<SocketAddr>, now: int)
    requires SetOf(a + b) == SetOf(a) + SetOf(b)
    ensures Touched(Touched(rows, a, now), b, now) == Touched(rows, a + b, now)
  {
    hide SetOf;
  }

  lemma KnownAdds(rows: map<SocketAddr, int>, a: seq<SocketAddr>, b: seq<SocketAddr>, now: int)
    requires SetOf(a + b) == SetOf(a) + SetOf(b) && SetOf(a) !! SetOf(b)
    ensures Known(Touched(rows, a, now), b) == Known(rows, b)
    ensures Known(rows, a + b) == Known(rows, a) + Known(rows, b)
  {
    hide SetOf;
    var k := rows.Keys;
    assert Touched(rows, a, now).Keys == k + SetOf(a);
    assert SetOf(b) * (k + SetOf(a)) == SetOf(b) * k;
    assert SetOf(a + b) * k == SetOf(a) * k + SetOf(b) * k;
  }

  /** What is left after the rows beyond the limit are gone. */
  lemma Trimmed(rows: map<SocketAddr, int>, list: seq<SocketAddr>, limit: nat)
    requires Listed(rows, list)
    ensures var left := rows - SetOf(Drop(list, limit));
            |left| == Min(limit, |rows|) && |rows| == |left| + |Drop(list, limit)|
  {
    var tail := Drop(list, limit);
    TakeDropNoDup(list, limit);
    NoDupSize(list);
    NoDupSize(tail);
    hide NoDup, SetOf;
    var left := rows - SetOf(tail);
    assert SetOf(tail) <= rows.Keys;
    assert left.Keys == rows.Keys - SetOf(tail);
    assert |rows| == |rows.Keys| && |left| == |left.Keys|;
  }

  /** Those left are at least as recent as those gone. */
  lemma RecentStay(rows: map<SocketAddr, int>, list: seq<SocketAddr>, limit: nat, a: SocketAddr, b: SocketAddr)
    requires Listed(rows, list) && a in rows && a !in SetOf(Drop(list, limit)) && b in SetOf(Drop(list, limit))
    ensures b in rows && rows[a] >= rows[b]
  {
    var tail := Drop(list, limit);
    assert a in SetOf(list);
    var i :| 0 <= i < |list| && list[i] == a;
    var j :| 0 <= j < |tail| && tail[j] == b;
    assert list[limit + j] == b && b in SetOf(list);
    forall k | limit <= k < |list|
      ensures list[k] in SetOf(tail)
    {
      assert tail[k - limit] == list[k];
    }
  }

  /** The insert loop: chunks of addresses are counted, then inserted or refreshed. */
  method Upsert(rows0: map<SocketAddr, int>, addresses: seq<SocketAddr>, now: int)
    returns (rows: map<SocketAddr, int>, inserted: nat, updated: nat)
    requires NoDup(addresses)
    ensures rows == Touched(rows0, addresses, now)
    ensures inserted + updated == |addresses| && updated == Known(rows0, addresses)
  {
    hide Touched, Known, NoDup;
    rows, inserted, updated := rows0, 0, 0;
    NothingTouched(rows0, addresses, now);
    var i := 0;
    while i < |addresses|
      invariant 0 <= i <= |addresses| && rows == Touched(rows0, addresses[..i], now)
      invariant updated == Known(rows0, addresses[..i]) && inserted + updated == i
    {
      var next := if i + CHUNK < |addresses| then i + CHUNK else |addresses|;
      var chunk := addresses[i..next];
      ChunkNoDup(addresses, i, next);
      TouchedMore(rows0, addresses[..i], chunk, now);
      TouchedSize(rows, chunk, now);
      var existing := Known(rows, chunk);
      updated := updated + existing;
      inserted := inserted + (|chunk| - existing);
      rows := Touched(rows, chunk, now);
      i := next;
    }
    assert addresses[..|addresses|] == addresses;
  }

  lemma NothingTouched(rows: map<SocketAddr, int>, addresses: seq<SocketAddr>, now: int)
    ensures rows == Touched(rows, addresses[..0], now) && Known(rows, addresses[..0]) == 0
  {
  }

  lemma ChunkNoDup(addresses: seq<SocketAddr>, i: nat, next: nat)
    requires NoDup(addresses) && i <= next <= |addresses|
    ensures addresses[..next] == addresses[..i] + addresses[i..next] && NoDup(addresses[..i] + addresses[i..next])
  {
  }

  /** The peers of persist_hash_discovery_once: the first addresses, each once, are inserted or refreshed, then
      the least recent rows beyond the limit go. The reported counts account for the change exactly. */
  method PersistPeers(rows0: map<SocketAddr, int>, peers: seq<SocketAddr>, limit: nat, now: int,
                      query: map<SocketAddr, int> -> seq<SocketAddr>)
    returns (rows: map<SocketAddr, int>, inserted: nat, updated: nat, deleted: nat)
    requires MostRecentFirst(query)
    ensures var addresses := NewPeers(Take(peers, limit), {});
            var touched := Touched(rows0, addresses, now);
            && inserted + updated == |addresses| && updated == Known(rows0, addresses)
            && |rows| == |rows0| + inserted - deleted && |rows| == Min(limit, |touched|)
            && (forall a | a in rows :: a in touched && rows[a] == touched[a])
            && (forall a | a in touched :: a in rows0 || a in Take(peers, limit))
            && (forall a | a in touched :: touched[a] == if a in Take(peers, limit) then now else rows0[a])
            && (forall a, b | a in rows && b in touched && b !in rows :: rows[a] >= touched[b])
  {
    hide Touched, Known, NoDup, SetOf;
    var addresses := Distinct(Take(peers, limit));
    SeenNow(rows0, Take(peers, limit), now);
    NewPeersExact(Take(peers, limit), {});
    rows, inserted, updated := Upsert(rows0, addresses, now);
    TouchedSize(rows0, addresses, now);
    assert Listed(rows, query(rows));
    Trimmed(rows, query(rows), limit);
    var excess := Drop(query(rows), limit);
    forall a, b | a in rows - SetOf(excess) && b in rows && b !in rows - SetOf(excess)
      ensures rows[a] >= rows[b]
    {
      RecentStay(rows, query(rows), limit, a, b);
    }
    rows := rows - SetOf(excess);
    deleted := |excess|;
  }

  lemma SeenNow(rows: map<SocketAddr, int>, peers: seq<SocketAddr>, now: int)
    ensures var touched := Touched(rows, NewPeers(peers, {}), now);
            forall a | a in touched :: (a in rows || a in peers) && touched[a] == if a in peers then now else rows[a]
  {
    hide Touched;
    NewPeersExact(peers, {});
    forall a: SocketAddr
      ensures a in peers <==> a in NewPeers(peers, {})
    {
      assert a in peers <==> a in SetOf(peers);
      assert a in NewPeers(peers, {}) <==> a in SetOf(NewPeers(peers, {}));
    }
    forall a: SocketAddr
      ensures var touched := Touched(rows, NewPeers(peers, {}), now);
              (a in touched <==> a in rows || a in NewPeers(peers, {}))
              && (a in touched ==> touched[a] == if a in NewPeers(peers, {}) then now else rows[a])
    {
      TouchedExact(rows, NewPeers(peers, {}), now, a);
    }
  }

  /** retain(|addr| seen.insert(addr)) */
  method Distinct(peers: seq<SocketAddr>) returns (addresses: seq<SocketAddr>)
    ensures addresses == NewPeers(peers, {})
  {
    addresses := [];
    var seen: set<SocketAddr> := {};
    var i := 0;
    while i < |peers|
      invariant 0 <= i <= |peers| && addresses == NewPeers(peers[..i], {}) && seen == SetOf(addresses)
    {
      assert peers[..i + 1][..i] == peers[..i];
      if peers[i] !in seen {
        seen := seen + {peers[i]};
        addresses := addresses + [peers[i]];
      }
      i := i + 1;
    }
    assert peers[..|peers|] == peers;
  }
}
