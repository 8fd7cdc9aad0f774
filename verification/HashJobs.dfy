/** A hash job of the metadata fetcher: its peer queue and the set of the addresses in it. */
module HashJobs {
  import opened Net
  import opened Seqs

  const U32_MAX: nat := 0xFFFF_FFFF

  datatype HashJob = HashJob(peers: seq<SocketAddr>, peerSet: set<SocketAddr>, running: bool, attempts: nat)

  /** The addresses of peers that are not in seen, each at its first occurrence. */
  function NewPeers(peers: seq<SocketAddr>, seen: set<SocketAddr>): seq<SocketAddr>
  {
    if |peers| == 0 then []
    else
      var earlier, last := NewPeers(peers[..|peers| - 1], seen), peers[|peers| - 1];
      if last in seen || last in earlier then earlier else earlier + [last]
  }

  lemma {:induction false} NewPeersExact(peers: seq<SocketAddr>, seen: set<SocketAddr>)
    ensures NoDup(NewPeers(peers, seen)) && SetOf(NewPeers(peers, seen)) == SetOf(peers) - seen
  {
    if |peers| > 0 {
      var init, last := peers[..|peers| - 1], peers[|peers| - 1];
      NewPeersExact(init, seen);
      assert SetOf(peers) == SetOf(init) + {last};
      assert last in NewPeers(init, seen) <==> last in SetOf(NewPeers(init, seen));
      if last !in seen && last !in NewPeers(init, seen) {
        NoDupConcat(NewPeers(init, seen), [last]);
      }
    }
  }

  lemma {:induction false} NewPeersPrefix(peers: seq<SocketAddr>, i: nat, seen: set<SocketAddr>)
    requires i <= |peers|
    ensures NewPeers(peers[..i], seen) <= NewPeers(peers, seen)
    decreases |peers|
  {
    if i < |peers| {
      var init := peers[..|peers| - 1];
      NewPeersPrefix(init, i, seen);
      assert init[..i] == peers[..i];
    } else {
      assert peers[..i] == peers;
    }
  }

  /** merge_peers: new addresses go in front, in order, as far as the limit allows. */
  function Merged(peers: seq<SocketAddr>, more: seq<SocketAddr>, limit: nat): seq<SocketAddr>
  {
    Take(NewPeers(more, SetOf(peers)), if limit < |peers| then 0 else limit - |peers|) + peers
  }

  lemma MergedOk(peers: seq<SocketAddr>, more: seq<SocketAddr>, limit: nat)
    requires NoDup(peers)
    ensures NoDup(Merged(peers, more, limit))
    ensures |peers| <= |Merged(peers, more, limit)| <= Max(limit, |peers|)
    ensures SetOf(peers) <= SetOf(Merged(peers, more, limit)) <= SetOf(peers) + SetOf(more)
  {
    var newcomers := NewPeers(more, SetOf(peers));
    var n := if limit < |peers| then 0 else limit - |peers|;
    NewPeersExact(more, SetOf(peers));
    TakeDropNoDup(newcomers, n);
    assert SetOf(Take(newcomers, n)) <= SetOf(newcomers);
    NoDupConcat(Take(newcomers, n), peers);
  }

  /** Where x first occurs in s. */
  function FirstAt(s: seq<SocketAddr>, x: SocketAddr): (i: nat)
    requires x in s
    ensures i < |s| && s[i] == x && x !in s[..i]
  {
    if s[0] == x then 0 else 1 + FirstAt(s[1..], x)
  }

  lemma FirstAtUnique(s: seq<SocketAddr>, x: SocketAddr, i: nat)
    requires i < |s| && s[i] == x && x !in s[..i]
    ensures FirstAt(s, x) == i
  {
    var j := FirstAt(s, x);
    assert forall k | 0 <= k < i :: s[k] == s[..i][k];
    assert forall k | 0 <= k < j :: s[k] == s[..j][k];
  }

  lemma InSet<T>(s: seq<T>)
    ensures forall x :: x in s <==> x in SetOf(s)
  {
  }

  /** Newcomers come in the order in which they first occur. */
  lemma {:induction false} NewPeersInOrder(peers: seq<SocketAddr>, seen: set<SocketAddr>, i: nat, j: nat)
    requires i < j < |NewPeers(peers, seen)|
    ensures var n := NewPeers(peers, seen); n[i] in peers && n[j] in peers && FirstAt(peers, n[i]) < FirstAt(peers, n[j])
  {
    hide FirstAt, SetOf;
    var init, last := peers[..|peers| - 1], peers[|peers| - 1];
    var earlier, n := NewPeers(init, seen), NewPeers(peers, seen);
    NewPeersExact(init, seen);
    InSet(earlier);
    InSet(init);
    assert n[i] == earlier[i] && earlier[i] in earlier && n[i] in SetOf(earlier) && n[i] in init;
    FirstAtUnique(peers, n[i], FirstAt(init, n[i]));
    if j < |earlier| {
      NewPeersInOrder(init, seen, i, j);
      FirstAtUnique(peers, n[j], FirstAt(init, n[j]));
    } else {
      assert last in init ==> last in SetOf(init) && last in SetOf(earlier);
      FirstAtUnique(peers, last, |init|);
    }
  }

  /** The old queue keeps its order at the end. In front of it come newcomers, in the order in which they were given:
      all of them, or as many as the limit admits. */
  lemma MergedExact(peers: seq<SocketAddr>, more: seq<SocketAddr>, limit: nat)
    requires NoDup(peers)
    ensures var m := Merged(peers, more, limit);
            && |peers| <= |m| && m[|m| - |peers|..] == peers
            && (forall i | 0 <= i < |m| - |peers| :: m[i] in more && m[i] !in peers)
            && (forall i, j | 0 <= i < j < |m| - |peers| :: FirstAt(more, m[i]) < FirstAt(more, m[j]))
            && ((forall x | x in more :: x in m) || |m| >= limit)
            && (forall x, i | x in more && x !in m && 0 <= i < |m| - |peers| :: FirstAt(more, m[i]) < FirstAt(more, x))
  {
    hide NewPeers, FirstAt, NoDup;
    var newcomers, m := NewPeers(more, SetOf(peers)), Merged(peers, more, limit);
    var n := |m| - |peers|;
    NewPeersExact(more, SetOf(peers));
    assert m[n..] == peers;
    assert forall i | 0 <= i < |newcomers| :: newcomers[i] in SetOf(newcomers);
    forall i, j | 0 <= i < j < |newcomers|
      ensures FirstAt(more, newcomers[i]) < FirstAt(more, newcomers[j])
    {
      NewPeersInOrder(more, SetOf(peers), i, j);
    }
    forall x | x in more && x !in m
      ensures exists k :: n <= k < |newcomers| && newcomers[k] == x
    {
      assert x !in SetOf(peers) by { InMerged(peers, m, x); }
      assert x in SetOf(newcomers);
      assert forall k | 0 <= k < n :: newcomers[k] == m[k];
      var k :| 0 <= k < |newcomers| && newcomers[k] == x;
    }
  }

  lemma InMerged(peers: seq<SocketAddr>, m: seq<SocketAddr>, x: SocketAddr)
    requires |peers| <= |m| && m[|m| - |peers|..] == peers && x !in m
    ensures x !in peers
  {
    assert forall i | 0 <= i < |peers| :: peers[i] == m[|m| - |peers| + i];
  }

  method MergePeers(job: HashJob, peers: seq<SocketAddr>, limit: nat) returns (merged: HashJob, added: nat)
    requires job.peerSet == SetOf(job.peers)
    ensures merged.peers == Merged(job.peers, peers, limit)
    ensures merged.peerSet == SetOf(merged.peers)
    ensures added == |merged.peers| - |job.peers|
    ensures merged.running == job.running && merged.attempts == job.attempts
  {
    var available := if limit < |job.peers| then 0 else limit - |job.peers|;
    var admitted: seq<SocketAddr> := [];
    var peerSet := job.peerSet;
    var i := 0;
    while i < |peers| && |admitted| < available
      invariant 0 <= i <= |peers| && |admitted| <= available
      invariant admitted == NewPeers(peers[..i], job.peerSet)
      invariant peerSet == job.peerSet + SetOf(admitted)
    {
      assert peers[..i + 1][..i] == peers[..i];
      if peers[i] !in peerSet {
        peerSet := peerSet + {peers[i]};
        admitted := admitted + [peers[i]];
      }
      i := i + 1;
    }
    NewPeersPrefix(peers, i, job.peerSet);
    assert peers[..|peers|] == peers;
    assert admitted == Take(NewPeers(peers, job.peerSet), available);
    added := |admitted|;
    merged := job.(peers := admitted + job.peers, peerSet := peerSet);
    assert SetOf(admitted + job.peers) == SetOf(admitted) + SetOf(job.peers);
  }

  /** take_round: the first peers leave the queue, and their addresses the set. */
  method TakeRound(job: HashJob, limit: nat) returns (rest: HashJob, peers: seq<SocketAddr>)
    requires job.peerSet == SetOf(job.peers) && NoDup(job.peers)
    ensures peers == Take(job.peers, limit) && rest.peers == Drop(job.peers, limit)
    ensures rest.peerSet == SetOf(rest.peers)
    ensures rest.running == job.running && rest.attempts == job.attempts
  {
    peers := [];
    var queue, peerSet := job.peers, job.peerSet;
    while |peers| < limit && queue != []
      invariant |peers| <= limit && |peers| <= |job.peers|
      invariant peers == job.peers[..|peers|] && queue == job.peers[|peers|..]
      invariant peerSet == SetOf(queue)
    {
      var peer := queue[0];
      assert NoDup(queue);
      assert SetOf(queue[1..]) == SetOf(queue) - {peer};
      queue := queue[1..];
      peerSet := peerSet - {peer};
      peers := peers + [peer];
    }
    rest := job.(peers := queue, peerSet := peerSet);
  }
}
