/** The Kademlia routing table: buckets that split only toward our own id. */
module Routing {
  import opened NodeIds
  import opened Net
  import opened Sums
  import opened Buckets

  /** Prefix length at and beyond which a bucket that covers us can no longer overflow. */
  const DEEPEST_PREFIX: nat := 157
  const MAX_BUCKETS: nat := 158

  /** The invariant of the table between operations. */
  ghost predicate TableOk(bs: seq<Bucket>, ourId: NodeId, maxCandidates: nat)
  {
    && Shape(bs, ourId)
    && CandidateTotal(bs) <= Max(1, maxCandidates)
  }

  ghost predicate Shape(bs: seq<Bucket>, ourId: NodeId)
  {
    && Partition(bs)
    && AllOk(bs, ourId)
    && Covered(bs, ourId)
    && OurDepth(bs, ourId) <= DEEPEST_PREFIX
    && |bs| == OurDepth(bs, ourId) + 1
  }

  ghost predicate AllOk(bs: seq<Bucket>, ourId: NodeId)
  {
    forall k | 0 <= k < |bs| :: BucketOk(bs[k], ourId)
  }

  function OurDepth(bs: seq<Bucket>, ourId: NodeId): nat
    requires Covered(bs, ourId)
  {
    bs[BucketIndex(bs, ourId)].prefixLen
  }

  predicate IsBad(r: Record)
  {
    r.unanswered >= BAD_AFTER_FAILURES
  }

  /** No stored contact has failed often enough to be bad. */
  ghost predicate NoBad(bs: seq<Bucket>)
  {
    forall id: NodeId :: Covered(bs, id) && (LiveAt(bs, id).Some? ==> !IsBad(LiveAt(bs, id).value))
  }

  lemma BucketCountBound(bs: seq<Bucket>, ourId: NodeId)
    requires Shape(bs, ourId)
    ensures |bs| <= MAX_BUCKETS
  {
  }

  /** Our own id is stored nowhere, and no id is live and a candidate at once. */
  lemma NeverBoth(bs: seq<Bucket>, ourId: NodeId, c: Contact)
    requires Shape(bs, ourId)
    ensures Covered(bs, c.id)
    ensures IsCandidate(bs, c) ==> LiveAt(bs, c.id).None? && c.id != ourId
    ensures LiveAt(bs, ourId).None?
  {
    assert Covered(bs, c.id);
    var b := bs[BucketIndex(bs, c.id)];
    assert BucketOk(b, ourId);
    assert BucketOk(bs[BucketIndex(bs, ourId)], ourId);
  }

  /** A full bucket that covers us and a ninth foreign id has a prefix of at most 156 bits:
      ten ids under one prefix need at least four free bits. */
  lemma OverflowDepth(b: Bucket, ourId: NodeId, id: NodeId)
    requires BucketOk(b, ourId) && |b.nodes| >= K
    requires Covers(b, ourId) && Covers(b, id) && id != ourId && id !in b.nodes
    ensures b.prefixLen < DEEPEST_PREFIX
  {
    var ids := b.nodes.Keys + {id} + {ourId};
    assert |ids| >= 10;
    PrefixCapacity(ids, b.prefix, b.prefixLen);
    assert Pow2(3) == 8;
    if b.prefixLen >= DEEPEST_PREFIX {
      Pow2Monotone(ID_BITS - b.prefixLen, 3);
    }
  }

  lemma {:induction false} Pow2Monotone(a: nat, b: nat)
    requires a <= b
    ensures Pow2(a) <= Pow2(b)
  {
    if a < b {
      Pow2Monotone(a, b - 1);
    }
  }

  // ------------------------------------------------------------ candidate queues

  function FirstWithCandidates(bs: seq<Bucket>): (i: nat)
    ensures i <= |bs|
    ensures i < |bs| ==> |bs[i].replacements| > 0
    ensures forall k | 0 <= k < i :: |bs[k].replacements| == 0
  {
    if |bs| == 0 then 0
    else if |bs[0].replacements| > 0 then 0
    else 1 + FirstWithCandidates(bs[1..])
  }

  ghost predicate SuffixOf<T>(s: seq<T>, t: seq<T>)
  {
    |s| <= |t| && s == t[|t| - |s|..]
  }

  /** b is a with some of the oldest candidates of each queue gone. */
  ghost predicate Trimmed(a: seq<Bucket>, b: seq<Bucket>)
  {
    && SamePrefixes(a, b)
    && (forall k | 0 <= k < |a| :: b[k].nodes == a[k].nodes && SuffixOf(b[k].replacements, a[k].replacements))
  }

  lemma TrimmedItself(bs: seq<Bucket>)
    ensures Trimmed(bs, bs)
  {
  }

  /** One more queue loses its oldest candidate. */
  lemma TrimmedOnce(a: seq<Bucket>, b: seq<Bucket>, i: nat)
    requires Trimmed(a, b) && i < |b| && |b[i].replacements| > 0
    ensures Trimmed(a, b[i := b[i].(replacements := b[i].replacements[1..])])
  {
    hide SuffixOf;
    var queue := b[i].replacements;
    SuffixShorter(queue, a[i].replacements);
  }

  lemma SuffixShorter<T>(s: seq<T>, t: seq<T>)
    requires SuffixOf(s, t) && |s| > 0
    ensures SuffixOf(s[1..], t)
  {
  }

  /** b is a with contact queued last in bucket i, after some oldest candidates made room. */
  ghost predicate Queued(a: seq<Bucket>, b: seq<Bucket>, i: nat, contact: Contact)
  {
    && i < |a|
    && SamePrefixes(a, b)
    && (forall k | 0 <= k < |a| :: b[k].nodes == a[k].nodes)
    && (forall k | 0 <= k < |a| && k != i :: SuffixOf(b[k].replacements, a[k].replacements))
    && |b[i].replacements| > 0
    && b[i].replacements[|b[i].replacements| - 1] == contact
    && SuffixOf(b[i].replacements[..|b[i].replacements| - 1], a[i].replacements)
  }

  lemma SuffixMembers<T>(s: seq<T>, t: seq<T>)
    requires SuffixOf(s, t)
    ensures forall x | x in s :: x in t
  {
  }

  lemma TrimmedBucketOk(x: Bucket, y: Bucket, ourId: NodeId)
    requires BucketOk(x, ourId)
    requires y.prefix == x.prefix && y.prefixLen == x.prefixLen && y.nodes == x.nodes
    requires SuffixOf(y.replacements, x.replacements)
    ensures BucketOk(y, ourId)
  {
    assert forall id: NodeId :: Covers(y, id) == Covers(x, id);
    SuffixMembers(y.replacements, x.replacements);
  }

  lemma AppendBucketOk(x: Bucket, ourId: NodeId, contact: Contact)
    requires BucketOk(x, ourId) && |x.replacements| < K
    requires Covers(x, contact.id) && contact.id != ourId && contact.id !in x.nodes
    requires forall c | c in x.replacements :: c.id != contact.id
    ensures BucketOk(x.(replacements := x.replacements + [contact]), ourId)
  {
    var y := x.(replacements := x.replacements + [contact]);
    assert forall id: NodeId :: Covers(y, id) == Covers(x, id);
  }

  lemma QueuedBucketOk(x: Bucket, y: Bucket, ourId: NodeId, contact: Contact)
    requires BucketOk(x, ourId)
    requires y.prefix == x.prefix && y.prefixLen == x.prefixLen && y.nodes == x.nodes
    requires 0 < |y.replacements| <= K && y.replacements[|y.replacements| - 1] == contact
    requires SuffixOf(y.replacements[..|y.replacements| - 1], x.replacements)
    requires Covers(x, contact.id) && contact.id != ourId && contact.id !in x.nodes
    requires forall c | c in x.replacements :: c.id != contact.id
    ensures BucketOk(y, ourId)
    ensures forall c | c in y.replacements :: c == contact || c in x.replacements
  {
    var front := y.replacements[..|y.replacements| - 1];
    var z := y.(replacements := front);
    TrimmedBucketOk(x, z, ourId);
    SuffixMembers(front, x.replacements);
    assert forall id: NodeId :: Covers(z, id) == Covers(x, id);
    AppendBucketOk(z, ourId, contact);
    assert y.replacements == front + [contact];
  }

  /** Queueing keeps the shape of the table and everything that is live. */
  lemma QueuedKeeps(a: seq<Bucket>, b: seq<Bucket>, ourId: NodeId, i: nat, contact: Contact)
    requires Shape(a, ourId) && Queued(a, b, i, contact)
    requires |b[i].replacements| <= K
    requires Covers(a[i], contact.id) && contact.id != ourId && contact.id !in a[i].nodes
    requires forall c | c in a[i].replacements :: c.id != contact.id
    ensures Shape(b, ourId)
    ensures forall id: NodeId :: Covered(a, id) && Covered(b, id) && LiveAt(b, id) == LiveAt(a, id)
    ensures Covered(b, contact.id) && IsCandidate(b, contact)
    ensures forall c: Contact :: Covered(a, c.id) && Covered(b, c.id)
                                 && (IsCandidate(b, c) && c != contact ==> IsCandidate(a, c))
  {
    hide Covers, CandidateTotal, TailZero, BucketOk, Partition, SuffixOf, BucketIndex;
    SamePrefixesPartition(a, b);
    IndexUnique(a, contact.id, i);
    assert Covered(a, ourId) && OurDepth(b, ourId) == OurDepth(a, ourId);
    assert AllOk(b, ourId) by {
      forall k | 0 <= k < |b|
        ensures BucketOk(b[k], ourId)
      {
        QueuedBucketAt(a, b, ourId, i, contact, k);
      }
    }
    forall c: Contact
      ensures Covered(a, c.id) && Covered(b, c.id) && (IsCandidate(b, c) && c != contact ==> IsCandidate(a, c))
    {
      assert Covered(a, c.id) && Covered(b, c.id);
      QueuedBucketAt(a, b, ourId, i, contact, BucketIndex(a, c.id));
    }
  }

  lemma QueuedBucketAt(a: seq<Bucket>, b: seq<Bucket>, ourId: NodeId, i: nat, contact: Contact, k: nat)
    requires AllOk(a, ourId) && Queued(a, b, i, contact) && k < |a|
    requires |b[i].replacements| <= K
    requires Covers(a[i], contact.id) && contact.id != ourId && contact.id !in a[i].nodes
    requires forall c | c in a[i].replacements :: c.id != contact.id
    ensures BucketOk(b[k], ourId)
    ensures forall c | c in b[k].replacements && c != contact :: c in a[k].replacements
  {
    hide Covers, BucketOk, SuffixOf;
    assert BucketOk(a[k], ourId);
    if k == i {
      QueuedBucketOk(a[k], b[k], ourId, contact);
    } else {
      TrimmedBucketOk(a[k], b[k], ourId);
      SuffixMembers(b[k].replacements, a[k].replacements);
    }
  }

  /** Outside of the ids in touched, the same contacts are live with the same records. */
  ghost predicate SameLive(a: seq<Bucket>, b: seq<Bucket>, touched: set<NodeId>)
  {
    forall id: NodeId :: Covered(a, id) && Covered(b, id) && (id !in touched ==> LiveAt(b, id) == LiveAt(a, id))
  }

  /** Outside of the ids in touched, the same contacts are candidates. */
  ghost predicate SameCandidates(a: seq<Bucket>, b: seq<Bucket>, touched: set<NodeId>)
  {
    forall c: Contact :: Covered(a, c.id) && Covered(b, c.id) && (c.id !in touched ==> (IsCandidate(b, c) <==> IsCandidate(a, c)))
  }

  /** b keeps every good contact of a other than id, and has no live contact that a has not. */
  ghost predicate Kept(a: seq<Bucket>, b: seq<Bucket>, id: NodeId)
  {
    forall x: NodeId :: Covered(a, x) && Covered(b, x)
      && (x != id && LiveAt(b, x).Some? ==> LiveAt(b, x) == LiveAt(a, x))
      && (x != id && LiveAt(a, x).Some? && !IsBad(LiveAt(a, x).value) ==> LiveAt(b, x) == LiveAt(a, x))
  }

  lemma SameLiveKept(a: seq<Bucket>, b: seq<Bucket>, c: seq<Bucket>, id: NodeId)
    requires Kept(a, b, id) && SameLive(b, c, {id})
    ensures Kept(a, c, id)
  {
    forall x: NodeId
      ensures Covered(a, x) && Covered(b, x) && Covered(c, x) && (x != id ==> LiveAt(c, x) == LiveAt(b, x))
    {
    }
  }

  lemma SameItself(bs: seq<Bucket>, touched: set<NodeId>)
    requires Partition(bs)
    ensures SameLive(bs, bs, touched) && SameCandidates(bs, bs, {})
  {
    assert forall id: NodeId :: Covered(bs, id);
  }

  lemma SameCandidatesTwice(a: seq<Bucket>, b: seq<Bucket>, c: seq<Bucket>)
    requires SameCandidates(a, b, {}) && SameCandidates(b, c, {})
    ensures SameCandidates(a, c, {})
  {
    forall x: Contact
      ensures Covered(a, x.id) && Covered(c, x.id) && (IsCandidate(c, x) <==> IsCandidate(a, x))
    {
      assert Covered(a, x.id) && Covered(b, x.id) && Covered(c, x.id);
    }
  }

  lemma EvictKept(a: seq<Bucket>, b: seq<Bucket>, c: seq<Bucket>, id: NodeId, badId: NodeId)
    requires Kept(a, b, id) && SameLive(b, c, {badId})
    requires Covered(b, badId) && Covered(c, badId) && LiveAt(c, badId).None?
    requires LiveAt(b, badId).Some? && IsBad(LiveAt(b, badId).value)
    ensures Kept(a, c, id)
  {
    forall x: NodeId
      ensures Covered(a, x) && Covered(b, x) && Covered(c, x) && (x != badId ==> LiveAt(c, x) == LiveAt(b, x))
    {
    }
  }

  /** A table without bad contacts loses none of its contacts. */
  lemma KeptWithoutBad(a: seq<Bucket>, b: seq<Bucket>, id: NodeId)
    requires Kept(a, b, id) && NoBad(a)
    requires Covered(b, id) && (LiveAt(b, id).Some? ==> !IsBad(LiveAt(b, id).value))
    ensures NoBad(b) && SameLive(a, b, {id})
  {
    forall x: NodeId
      ensures Covered(a, x) && Covered(b, x) && (x != id ==> LiveAt(b, x) == LiveAt(a, x))
    {
      assert Covered(a, x) && Covered(b, x);
    }
    forall x: NodeId
      ensures Covered(b, x) && (LiveAt(b, x).Some? ==> !IsBad(LiveAt(b, x).value))
    {
      assert Covered(a, x) && Covered(b, x);
    }
  }

  /** New contents for one bucket leave every id in the bucket it was in. */
  lemma ReplaceIndex(bs: seq<Bucket>, i: nat, b: Bucket, id: NodeId)
    requires i < |bs| && b.prefix == bs[i].prefix && b.prefixLen == bs[i].prefixLen
    requires Covered(bs, id)
    ensures Covered(bs[i := b], id) && BucketIndex(bs[i := b], id) == BucketIndex(bs, id)
  {
    SamePrefixesCover(bs, bs[i := b], id);
  }

  lemma ReplaceShape(bs: seq<Bucket>, i: nat, b: Bucket, ourId: NodeId)
    requires Shape(bs, ourId) && i < |bs|
    requires b.prefix == bs[i].prefix && b.prefixLen == bs[i].prefixLen && BucketOk(b, ourId)
    ensures Shape(bs[i := b], ourId) && OurDepth(bs[i := b], ourId) == OurDepth(bs, ourId)
    ensures CandidateTotal(bs[i := b]) == CandidateTotal(bs) - |bs[i].replacements| + |b.replacements|
  {
    hide Covers, CandidateTotal, BucketOk, BucketIndex;
    CandidateTotalUpdate(bs, i, b);
    var s := bs[i := b];
    ReplaceIndex(bs, i, b, ourId);
    assert AllOk(s, ourId);
    assert Partition(s) by {
      SamePrefixesPartition(bs, s);
    }
  }

  lemma ReplaceLiveAt(bs: seq<Bucket>, i: nat, b: Bucket, id: NodeId)
    requires Covered(bs, id) && i < |bs| && b.prefix == bs[i].prefix && b.prefixLen == bs[i].prefixLen
    requires id in b.nodes <==> id in bs[i].nodes
    requires id in b.nodes ==> b.nodes[id] == bs[i].nodes[id]
    ensures Covered(bs[i := b], id) && LiveAt(bs[i := b], id) == LiveAt(bs, id)
  {
    hide Covers, BucketIndex, Covered;
    ReplaceIndex(bs, i, b, id);
  }

  lemma ReplaceLive(bs: seq<Bucket>, i: nat, b: Bucket, touched: set<NodeId>)
    requires Partition(bs) && i < |bs| && b.prefix == bs[i].prefix && b.prefixLen == bs[i].prefixLen
    requires forall x: NodeId | x !in touched :: x in b.nodes <==> x in bs[i].nodes
    requires forall x: NodeId | x !in touched && x in b.nodes :: b.nodes[x] == bs[i].nodes[x]
    ensures SameLive(bs, bs[i := b], touched)
  {
    hide Covers, LiveAt, BucketIndex, Covered;
    forall id: NodeId
      ensures Covered(bs, id) && Covered(bs[i := b], id) && (id !in touched ==> LiveAt(bs[i := b], id) == LiveAt(bs, id))
    {
      assert Covered(bs, id);
      ReplaceIndex(bs, i, b, id);
      if id !in touched {
        ReplaceLiveAt(bs, i, b, id);
      }
    }
  }

  lemma ReplaceCandidates(bs: seq<Bucket>, i: nat, b: Bucket, touched: set<NodeId>)
    requires Partition(bs) && i < |bs| && b.prefix == bs[i].prefix && b.prefixLen == bs[i].prefixLen
    requires forall c: Contact | c.id !in touched :: c in b.replacements <==> c in bs[i].replacements
    ensures SameCandidates(bs, bs[i := b], touched)
  {
    forall c: Contact
      ensures Covered(bs, c.id) && Covered(bs[i := b], c.id)
              && (c.id !in touched ==> (IsCandidate(bs[i := b], c) <==> IsCandidate(bs, c)))
    {
      assert Covered(bs, c.id);
      ReplaceIndex(bs, i, b, c.id);
    }
  }

  lemma SplitShape(bs: seq<Bucket>, i: nat, ourId: NodeId)
    requires Shape(bs, ourId) && i < |bs| && Covers(bs[i], ourId) && bs[i].prefixLen < DEEPEST_PREFIX
    ensures Shape(Split(bs, i), ourId)
    ensures OurDepth(Split(bs, i), ourId) == OurDepth(bs, ourId) + 1
    ensures CandidateTotal(Split(bs, i)) == CandidateTotal(bs)
  {
    var s := Split(bs, i);
    SplitTotal(bs, i);
    IndexUnique(bs, ourId, i);
    assert TailZero(bs[i]) by {
      assert BucketOk(bs[i], ourId);
    }
    assert Partition(s) && Covered(s, ourId) by {
      SplitPartition(bs, i);
    }
    assert s[BucketIndex(s, ourId)] == Half(bs[i], BitValue(ourId, bs[i].prefixLen)) by {
      SplitPartition(bs, i);
      SplitBucketOf(bs, i, ourId);
    }
    assert AllOk(s, ourId) by {
      SplitAllOk(bs, i, ourId);
    }
  }

  lemma SplitAllOk(bs: seq<Bucket>, i: nat, ourId: NodeId)
    requires AllOk(bs, ourId) && i < |bs| && bs[i].prefixLen < ID_BITS
    ensures AllOk(Split(bs, i), ourId)
  {
    SplitAt(bs, i);
    HalfOk(bs[i], ourId, false);
    HalfOk(bs[i], ourId, true);
    var s := Split(bs, i);
    forall k | 0 <= k < |s|
      ensures BucketOk(s[k], ourId)
    {
      if k < i {
        assert s[k] == bs[k];
      } else if k >= i + 2 {
        assert s[k] == bs[k - 1];
      }
    }
  }

  lemma SplitSame(bs: seq<Bucket>, i: nat)
    requires Partition(bs) && i < |bs| && bs[i].prefixLen < ID_BITS && TailZero(bs[i])
    requires Partition(Split(bs, i))
    ensures SameLive(bs, Split(bs, i), {}) && SameCandidates(bs, Split(bs, i), {})
  {
    SplitKeeps(bs, i);
    assert forall id: NodeId :: Covered(Split(bs, i), id);
  }

  // ------------------------------------------------------------ one bucket's contents change

  function Without(cs: seq<Contact>, id: NodeId): (r: seq<Contact>)
    ensures |r| <= |cs|
  {
    if |cs| == 0 then []
    else
      var rest := Without(cs[..|cs| - 1], id);
      if cs[|cs| - 1].id != id then rest + [cs[|cs| - 1]] else rest
  }

  lemma {:induction false} WithoutMembers(cs: seq<Contact>, id: NodeId)
    ensures forall c :: c in Without(cs, id) <==> c in cs && c.id != id
  {
    if |cs| > 0 {
      WithoutMembers(cs[..|cs| - 1], id);
      assert cs == cs[..|cs| - 1] + [cs[|cs| - 1]];
    }
  }

  lemma {:induction false} WithoutDistinct(cs: seq<Contact>, id: NodeId)
    requires DistinctIds(cs)
    ensures DistinctIds(Without(cs, id))
  {
    if |cs| > 0 {
      var init := cs[..|cs| - 1];
      WithoutDistinct(init, id);
      WithoutMembers(init, id);
      assert forall c | c in init :: c.id != cs[|cs| - 1].id;
    }
  }

  function Fresh(id: NodeId, addr: SocketAddr, now: int): Record
  {
    Record(Contact(id, addr, now), 0)
  }

  function Refreshed(b: Bucket, id: NodeId, addr: SocketAddr, now: int): Bucket
  {
    b.(nodes := b.nodes[id := Fresh(id, addr, now)])
  }

  function Inserted(b: Bucket, id: NodeId, addr: SocketAddr, now: int): Bucket
  {
    b.(replacements := Without(b.replacements, id), nodes := b.nodes[id := Fresh(id, addr, now)])
  }

  function Removed(b: Bucket, id: NodeId): Bucket
  {
    b.(nodes := b.nodes - {id})
  }

  lemma SameCover(b: Bucket, c: Bucket)
    requires b.prefix == c.prefix && b.prefixLen == c.prefixLen
    ensures forall id: NodeId :: Covers(b, id) == Covers(c, id)
  {
  }

  lemma InsertOk(b: Bucket, ourId: NodeId, id: NodeId, addr: SocketAddr, now: int)
    requires BucketOk(b, ourId) && Covers(b, id) && id != ourId
    requires |b.nodes| < K || id in b.nodes
    ensures BucketOk(Inserted(b, id, addr, now), ourId)
  {
    WithoutMembers(b.replacements, id);
    WithoutDistinct(b.replacements, id);
    SameCover(b, Inserted(b, id, addr, now));
    hide Covers, DistinctIds, Without;
    KeysPlus(b.nodes, id, Fresh(id, addr, now));
  }

  /** Inserting or refreshing id changes the table at id only; id stops being a candidate. */
  lemma InsertKeeps(bs: seq<Bucket>, i: nat, ourId: NodeId, id: NodeId, addr: SocketAddr, now: int)
    requires Shape(bs, ourId) && i < |bs| && Covers(bs[i], id) && id != ourId
    requires |bs[i].nodes| < K || id in bs[i].nodes
    ensures var s := bs[i := Inserted(bs[i], id, addr, now)];
            && Shape(s, ourId) && CandidateTotal(s) <= CandidateTotal(bs)
            && SameLive(bs, s, {id}) && SameCandidates(bs, s, {id})
            && Covered(s, id) && LiveAt(s, id) == Some(Record(Contact(id, addr, now), 0))
            && s[BucketIndex(s, id)].replacements == Without(bs[i].replacements, id)
  {
    var b := Inserted(bs[i], id, addr, now);
    assert Shape(bs[i := b], ourId) && CandidateTotal(bs[i := b]) <= CandidateTotal(bs) by {
      assert BucketOk(bs[i], ourId);
      InsertOk(bs[i], ourId, id, addr, now);
      ReplaceShape(bs, i, b, ourId);
    }
    ReplaceLive(bs, i, b, {id});
    WithoutMembers(bs[i].replacements, id);
    ReplaceCandidates(bs, i, b, {id});
    IndexUnique(bs, id, i);
    ReplaceIndex(bs, i, b, id);
  }

  /** A candidate is never live, so refreshing a live id leaves the queue as it is. */
  lemma RefreshIsInsert(b: Bucket, ourId: NodeId, id: NodeId, addr: SocketAddr, now: int)
    requires BucketOk(b, ourId) && id in b.nodes
    ensures Inserted(b, id, addr, now) == Refreshed(b, id, addr, now)
  {
    WithoutNothing(b.replacements, id);
  }

  lemma {:induction false} WithoutNothing(cs: seq<Contact>, id: NodeId)
    requires forall k | 0 <= k < |cs| :: cs[k].id != id
    ensures Without(cs, id) == cs
  {
    if |cs| > 0 {
      var init := cs[..|cs| - 1];
      assert forall k | 0 <= k < |init| :: init[k] == cs[k];
      WithoutNothing(init, id);
      assert cs == init + [cs[|cs| - 1]];
    }
  }

  lemma RemoveOk(b: Bucket, ourId: NodeId, id: NodeId)
    requires BucketOk(b, ourId) && id in b.nodes
    ensures BucketOk(Removed(b, id), ourId)
    ensures |Removed(b, id).nodes| == |b.nodes| - 1
  {
    SameCover(b, Removed(b, id));
    KeysMinus(b.nodes, id);
  }

  /** Removing id from its bucket changes the table at id only. */
  lemma RemoveKeeps(bs: seq<Bucket>, i: nat, ourId: NodeId, id: NodeId)
    requires Shape(bs, ourId) && i < |bs| && id in bs[i].nodes
    ensures var s := bs[i := Removed(bs[i], id)];
            && Shape(s, ourId) && CandidateTotal(s) == CandidateTotal(bs)
            && SameLive(bs, s, {id}) && SameCandidates(bs, s, {})
            && Covered(s, id) && LiveAt(s, id) == None
            && OurDepth(s, ourId) == OurDepth(bs, ourId)
            && |s[i].nodes| == |bs[i].nodes| - 1
  {
    hide Covers, CandidateTotal, BucketIndex, TailZero, SameLive, SameCandidates, DistinctIds;
    var b := Removed(bs[i], id);
    assert BucketOk(bs[i], ourId);
    RemoveOk(bs[i], ourId, id);
    ReplaceShape(bs, i, b, ourId);
    ReplaceLive(bs, i, b, {id});
    ReplaceCandidates(bs, i, b, {});
    IndexUnique(bs, id, i);
    ReplaceIndex(bs, i, b, id);
  }

  predicate Admissible(b: Bucket, ourId: NodeId, contact: Contact)
  {
    && contact.id != ourId
    && contact.id !in b.nodes
    && forall c | c in b.replacements :: c.id != contact.id && c.addr != contact.addr
  }

  /** A bucket with contact queued last; a full queue loses its oldest candidate. */
  function Pushed(b: Bucket, contact: Contact): Bucket
  {
    var kept := if |b.replacements| >= K then b.replacements[1..] else b.replacements;
    b.(replacements := kept + [contact])
  }

  lemma PushedQueue<T>(whole: seq<T>, queue: seq<T>, x: T)
    requires SuffixOf(queue, whole) && |whole| <= K
    ensures var kept := if |queue| >= K then queue[1..] else queue;
            && SuffixOf(kept, whole) && |kept + [x]| <= K && |kept + [x]| <= |queue| + 1
            && (kept + [x])[..|kept + [x]| - 1] == kept
  {
    var kept := if |queue| >= K then queue[1..] else queue;
    assert (kept + [x])[..|kept|] == kept;
  }

  /** The end of add_candidate: the push after the eviction is a queueing. */
  lemma PushAfterTrim(a: seq<Bucket>, roomy: seq<Bucket>, i: nat, contact: Contact)
    requires Trimmed(a, roomy) && i < |a| && |a[i].replacements| <= K
    ensures var b := roomy[i := Pushed(roomy[i], contact)];
            && Queued(a, b, i, contact)
            && |b[i].replacements| <= K
            && CandidateTotal(b) <= CandidateTotal(roomy) + 1
  {
    hide CandidateTotal, SuffixOf;
    var p := Pushed(roomy[i], contact);
    CandidateTotalUpdate(roomy, i, p);
    PushedQueue(a[i].replacements, roomy[i].replacements, contact);
    QueuedAt(a, roomy, i, p, contact);
  }

  lemma QueuedAt(a: seq<Bucket>, roomy: seq<Bucket>, i: nat, p: Bucket, contact: Contact)
    requires Trimmed(a, roomy) && i < |a|
    requires p.prefix == roomy[i].prefix && p.prefixLen == roomy[i].prefixLen && p.nodes == roomy[i].nodes
    requires |p.replacements| > 0 && p.replacements[|p.replacements| - 1] == contact
    requires SuffixOf(p.replacements[..|p.replacements| - 1], a[i].replacements)
    ensures Queued(a, roomy[i := p], i, contact)
  {
    hide SuffixOf;
    var b := roomy[i := p];
    assert b[i] == p;
    assert forall k | 0 <= k < |a| && k != i :: b[k] == roomy[k];
  }

  /** The state of mark_validated at the head of its loop. */
  ghost predicate Search(before: seq<Bucket>, bs: seq<Bucket>, ourId: NodeId, maxCandidates: nat, id: NodeId, evicted: bool)
  {
    && TableOk(bs, ourId, maxCandidates)
    && Kept(before, bs, id)
    && SameCandidates(before, bs, {})
    && Covered(before, id) && Covered(bs, id) && LiveAt(bs, id) == LiveAt(before, id)
    && (evicted ==> LiveAt(bs, id).None? && |bs[BucketIndex(bs, id)].nodes| < K)
  }

  lemma SearchStarts(bs: seq<Bucket>, ourId: NodeId, maxCandidates: nat, id: NodeId)
    requires TableOk(bs, ourId, maxCandidates)
    ensures Search(bs, bs, ourId, maxCandidates, id, false)
  {
    SameItself(bs, {});
  }

  /** A live id in a bucket is covered by that bucket and found there. */
  lemma FoundAt(bs: seq<Bucket>, i: nat, ourId: NodeId, id: NodeId)
    requires Shape(bs, ourId) && i < |bs| && id in bs[i].nodes
    ensures Covered(bs, id) && LiveAt(bs, id) == Some(bs[i].nodes[id])
  {
    hide Covers, TailZero, BucketIndex, CandidateTotal;
    assert BucketOk(bs[i], ourId);
    IndexUnique(bs, id, i);
  }

  /** The removal makes room in the bucket of id, which is not live there. */
  lemma EvictRoom(bs: seq<Bucket>, i: nat, ourId: NodeId, id: NodeId, badId: NodeId)
    requires Shape(bs, ourId) && Covered(bs, id) && i == BucketIndex(bs, id)
    requires badId in bs[i].nodes && id !in bs[i].nodes
    ensures var s := bs[i := Removed(bs[i], badId)];
            Covered(s, id) && BucketIndex(s, id) == i && LiveAt(s, id).None? && |s[i].nodes| < K
  {
    hide Covers, TailZero, BucketIndex, CandidateTotal, Partition;
    assert BucketOk(bs[i], ourId);
    KeysMinus(bs[i].nodes, badId);
    ReplaceIndex(bs, i, Removed(bs[i], badId), id);
  }

  lemma EvictStep(before: seq<Bucket>, bs: seq<Bucket>, ourId: NodeId, maxCandidates: nat, id: NodeId, badId: NodeId)
    requires Search(before, bs, ourId, maxCandidates, id, false) && LiveAt(bs, id).None?
    requires var b := bs[BucketIndex(bs, id)]; badId in b.nodes && IsBad(b.nodes[badId])
    ensures var i := BucketIndex(bs, id);
            var s := bs[i := Removed(bs[i], badId)];
            Search(before, s, ourId, maxCandidates, id, true) && OurDepth(s, ourId) == OurDepth(bs, ourId)
  {
    hide Covers, BucketOk, CandidateTotal, BucketIndex, Shape, SameLive, Kept, SameCandidates;
    var i := BucketIndex(bs, id);
    var s := bs[i := Removed(bs[i], badId)];
    FoundAt(bs, i, ourId, badId);
    EvictRoom(bs, i, ourId, id, badId);
    RemoveKeeps(bs, i, ourId, badId);
    EvictKept(before, bs, s, id, badId);
    SameCandidatesTwice(before, bs, s);
  }

  lemma QueuedNoBad(a: seq<Bucket>, b: seq<Bucket>)
    requires NoBad(a)
    requires forall id: NodeId :: Covered(a, id) && Covered(b, id) && LiveAt(b, id) == LiveAt(a, id)
    ensures NoBad(b)
  {
    forall x: NodeId
      ensures Covered(b, x) && (LiveAt(b, x).Some? ==> !IsBad(LiveAt(b, x).value))
    {
      assert Covered(a, x) && Covered(b, x);
    }
  }

  /** Queueing an admissible contact keeps the table sound and everything that is live. */
  lemma QueuedTable(a: seq<Bucket>, b: seq<Bucket>, ourId: NodeId, maxCandidates: nat, i: nat, contact: Contact)
    requires TableOk(a, ourId, maxCandidates) && Queued(a, b, i, contact)
    requires |b[i].replacements| <= K && CandidateTotal(b) <= Max(1, maxCandidates)
    requires Covered(a, contact.id) && i == BucketIndex(a, contact.id) && Admissible(a[i], ourId, contact)
    ensures TableOk(b, ourId, maxCandidates) && SameLive(a, b, {})
    ensures NoBad(a) ==> NoBad(b)
  {
    hide Covers, CandidateTotal, BucketOk, Partition, Queued, LiveAt, NoBad, IsCandidate;
    QueuedKeeps(a, b, ourId, i, contact);
    if NoBad(a) {
      QueuedNoBad(a, b);
    }
  }

  // ------------------------------------------------------------ failures

  const U8_MAX: nat := 255

  /** unanswered.saturating_add(1) on a u8. */
  function Failed(r: Record): Record
  {
    r.(unanswered := if r.unanswered >= U8_MAX then U8_MAX else r.unanswered + 1)
  }

  /** What record_failure leaves in the bucket of a live id. */
  function AfterFailure(b: Bucket, id: NodeId): Bucket
    requires id in b.nodes
  {
    var failed := Failed(b.nodes[id]);
    if IsBad(failed) then Removed(b, id) else b.(nodes := b.nodes[id := failed])
  }

  lemma AfterFailureOk(b: Bucket, ourId: NodeId, id: NodeId)
    requires BucketOk(b, ourId) && id in b.nodes
    ensures BucketOk(AfterFailure(b, id), ourId)
  {
    RemoveOk(b, ourId, id);
    SameCover(b, AfterFailure(b, id));
    KeysPlus(b.nodes, id, Failed(b.nodes[id]));
  }

  lemma FailureShape(bs: seq<Bucket>, ourId: NodeId, id: NodeId)
    requires Shape(bs, ourId) && Covered(bs, id) && LiveAt(bs, id).Some?
    ensures var i := BucketIndex(bs, id);
            var s := bs[i := AfterFailure(bs[i], id)];
            Shape(s, ourId) && CandidateTotal(s) == CandidateTotal(bs)
  {
    hide Covers, CandidateTotal, BucketOk, Partition, OurDepth;
    var i := BucketIndex(bs, id);
    assert BucketOk(bs[i], ourId);
    AfterFailureOk(bs[i], ourId, id);
    ReplaceShape(bs, i, AfterFailure(bs[i], id), ourId);
  }

  /** A failure counts against id alone: one more unanswered query, or removal at the second. */
  lemma FailureKeeps(bs: seq<Bucket>, id: NodeId)
    requires Partition(bs) && Covered(bs, id) && LiveAt(bs, id).Some?
    ensures var i := BucketIndex(bs, id);
            var s := bs[i := AfterFailure(bs[i], id)];
            && SameLive(bs, s, {id}) && SameCandidates(bs, s, {})
            && Covered(s, id)
            && LiveAt(s, id) == (if LiveAt(bs, id).value.unanswered == 0 then Some(Record(LiveAt(bs, id).value.contact, 1))
                                 else None)
  {
    var i := BucketIndex(bs, id);
    var b := AfterFailure(bs[i], id);
    ReplaceIndex(bs, i, b, id);
    ReplaceLive(bs, i, b, {id});
    ReplaceCandidates(bs, i, b, {});
  }

  lemma FailureNoBad(bs: seq<Bucket>, s: seq<Bucket>, id: NodeId)
    requires NoBad(bs) && SameLive(bs, s, {id}) && Covered(s, id)
    requires LiveAt(s, id).Some? ==> !IsBad(LiveAt(s, id).value)
    ensures NoBad(s)
  {
    forall x: NodeId
      ensures Covered(s, x) && (LiveAt(s, x).Some? ==> !IsBad(LiveAt(s, x).value))
    {
      assert Covered(bs, x) && Covered(s, x);
    }
  }

  /** What queueing leaves behind, seen from the queued id. */
  lemma DeferQueued(a: seq<Bucket>, b: seq<Bucket>, ourId: NodeId, i: nat, contact: Contact)
    requires Shape(a, ourId) && Shape(b, ourId) && Queued(a, b, i, contact)
    requires Covered(a, contact.id) && BucketIndex(a, contact.id) == i && Admissible(a[i], ourId, contact)
    ensures SameLive(a, b, {})
    ensures Covered(b, contact.id) && BucketIndex(b, contact.id) == i
    ensures b[i].nodes == a[i].nodes && (forall id: NodeId :: Covers(b[i], id) == Covers(a[i], id))
    ensures contact in b[i].replacements
    ensures forall c: Contact :: Covered(a, c.id) && Covered(b, c.id) && (IsCandidate(b, c) && c != contact ==> IsCandidate(a, c))
  {
    assert BucketOk(b[i], ourId);
    SamePrefixesCover(a, b, contact.id);
    QueuedKeeps(a, b, ourId, i, contact);
    SameCover(a[i], b[i]);
  }

  class RoutingTable {
    const ourId: NodeId
    const maxCandidates: nat
    var buckets: seq<Bucket>

    constructor (ourId: NodeId, maxCandidates: nat)
      ensures this.ourId == ourId && this.maxCandidates == maxCandidates
      ensures buckets == [Bucket(ZERO_ID, 0, map[], [])]
      ensures Valid()
    {
      this.ourId := ourId;
      this.maxCandidates := maxCandidates;
      buckets := [Bucket(ZERO_ID, 0, map[], [])];
      new;
      EmptyTable(ourId);
    }

    ghost predicate Valid()
      reads this
    {
      TableOk(buckets, ourId, maxCandidates)
    }

    /** split_bucket: the bucket at index gives way to its two halves. */
    method SplitBucket(index: nat)
      requires index < |buckets| && buckets[index].prefixLen < ID_BITS
      requires BucketOk(buckets[index], ourId)
      modifies `buckets
      ensures buckets == Split(old(buckets), index)
    {
      var bucket := buckets[index];
      buckets := buckets[..index] + buckets[index + 1..];
      var nextLen := bucket.prefixLen + 1;
      var rightPrefix := SetBit(bucket.prefix, bucket.prefixLen, true);
      var left := Bucket(bucket.prefix, nextLen, map[], []);
      var right := Bucket(rightPrefix, nextLen, map[], []);
      left, right := DistributeNodes(bucket, left, right);
      left, right := DistributeCandidates(bucket, left, right);
      buckets := buckets[..index] + [right] + buckets[index..];
      buckets := buckets[..index] + [left] + buckets[index..];
    }

    /** The global eviction loop of add_candidate: oldest candidates go, first bucket first. */
    method MakeRoom()
      modifies `buckets
      ensures Trimmed(old(buckets), buckets)
      ensures CandidateTotal(old(buckets)) < maxCandidates ==> buckets == old(buckets)
      ensures 1 <= maxCandidates <= CandidateTotal(old(buckets)) ==> CandidateTotal(buckets) == maxCandidates - 1
      ensures maxCandidates == 0 ==> CandidateTotal(buckets) == 0
      ensures forall j, k | 0 <= j < k < |buckets| && |buckets[k].replacements| < |old(buckets)[k].replacements| ::
                buckets[j].replacements == []
    {
      hide Trimmed, CandidateTotal;
      TrimmedItself(buckets);
      while CandidateTotal(buckets) >= maxCandidates
        invariant Trimmed(old(buckets), buckets)
        invariant CandidateTotal(old(buckets)) < maxCandidates ==> buckets == old(buckets)
        invariant 1 <= maxCandidates <= CandidateTotal(old(buckets)) ==> CandidateTotal(buckets) >= maxCandidates - 1
        invariant |buckets| == |old(buckets)|
        invariant forall j, k | 0 <= j < k < |buckets| && |buckets[k].replacements| < |old(buckets)[k].replacements| ::
                    buckets[j].replacements == []
        decreases CandidateTotal(buckets)
      {
        var i := FirstWithCandidates(buckets);
        if i < |buckets| {
          var bucket := buckets[i];
          CandidateTotalUpdate(buckets, i, bucket.(replacements := bucket.replacements[1..]));
          TrimmedOnce(old(buckets), buckets, i);
          buckets := buckets[i := bucket.(replacements := bucket.replacements[1..])];
        } else {
          NoCandidates(buckets);
          break;
        }
      }
    }

    /** The rest of add_candidate, once the contact is admissible: eviction, then the push. */
    method Enqueue(index: nat, contact: Contact)
      requires index < |buckets| && |buckets[index].replacements| <= K
      modifies `buckets
      ensures Queued(old(buckets), buckets, index, contact)
      ensures |buckets[index].replacements| <= K
      ensures CandidateTotal(buckets) <= Max(1, maxCandidates)
      ensures var queue := old(buckets)[index].replacements;
              CandidateTotal(old(buckets)) < maxCandidates ==>
                buckets == old(buckets)[index := old(buckets)[index].(replacements :=
                             (if |queue| == 8 then queue[1..] else queue) + [contact])]
    {
      hide CandidateTotal, Queued, SuffixOf;
      MakeRoom();
      ghost var roomy := buckets;
      var queue := buckets[index].replacements;
      queue := if |queue| >= K then queue[1..] else queue;
      buckets := buckets[index := buckets[index].(replacements := queue + [contact])];
      PushAfterTrim(old(buckets), roomy, index, contact);
    }

    /** add_candidate: refuses ourselves, live ids and duplicates of the bucket's queue. */
    method AddCandidate(contact: Contact) returns (added: bool)
      requires Valid()
      modifies `buckets
      ensures Valid()
      ensures Covered(old(buckets), contact.id)
      ensures added <==> contact.id != ourId && LiveAt(old(buckets), contact.id).None?
                         && forall c | c in old(buckets)[BucketIndex(old(buckets), contact.id)].replacements ::
                              c.id != contact.id && c.addr != contact.addr
      ensures !added ==> buckets == old(buckets)
      ensures added ==> Queued(old(buckets), buckets, BucketIndex(old(buckets), contact.id), contact)
      ensures SameLive(old(buckets), buckets, {})
      ensures old(NoBad(buckets)) ==> NoBad(buckets)
      ensures var i := BucketIndex(old(buckets), contact.id);
              var queue := old(buckets)[i].replacements;
              added && CandidateTotal(old(buckets)) < maxCandidates ==>
                buckets == old(buckets)[i := old(buckets)[i].(replacements :=
                             (if |queue| == 8 then queue[1..] else queue) + [contact])]
    {
      assert Covered(buckets, contact.id);
      SameItself(buckets, {});
      hide Covers, CandidateTotal, TailZero, Partition, Queued, BucketIndex, NoBad, SameLive, SameCandidates, OurDepth;
      assert BucketOk(buckets[BucketIndex(buckets, contact.id)], ourId);
      if contact.id == ourId || LiveAt(buckets, contact.id).Some? {
        return false;
      }
      var index := BucketIndex(buckets, contact.id);
      if exists c | c in buckets[index].replacements :: c.id == contact.id || c.addr == contact.addr {
        return false;
      }
      hide LiveAt, BucketOk, TableOk;
      Enqueue(index, contact);
      QueuedTable(old(buckets), buckets, ourId, maxCandidates, index, contact);
      return true;
    }

    /** What mark_validated promises for a foreign id: it is live afterwards, or its bucket is full of
        K other live contacts, does not cover us, and queues the id (or its address) as a candidate.
        No good contact is lost, whatever happens. */
    ghost predicate Outcome(before: seq<Bucket>, id: NodeId, addr: SocketAddr, now: int, inserted: bool)
      reads this
      requires Covered(before, id) && Covered(buckets, id)
    {
      && Kept(before, buckets, id)
      && (inserted ==> LiveAt(before, id).None?)
      && (inserted || LiveAt(before, id).Some? ==>
            && LiveAt(buckets, id) == Some(Record(Contact(id, addr, now), 0))
            && SameCandidates(before, buckets, {id}))
      && (!inserted && LiveAt(before, id).None? ==>
            && LiveAt(buckets, id).None?
            && var b := buckets[BucketIndex(buckets, id)];
            && |b.nodes| == 8 && !Covers(b, ourId)
            && (exists c | c in b.replacements :: c.id == id || c.addr == addr)
            && (forall c: Contact :: Covered(before, c.id) && Covered(buckets, c.id)
                 && (IsCandidate(buckets, c) && c != Contact(id, addr, now) ==> IsCandidate(before, c))))
    }

    /** A validation stores no bad contact, and a table without bad contacts loses nothing but its old record of id. */
    lemma OutcomeNoBad(before: seq<Bucket>, id: NodeId, addr: SocketAddr, now: int, inserted: bool)
      requires Covered(before, id) && Covered(buckets, id) && Outcome(before, id, addr, now, inserted)
      ensures NoBad(before) ==> NoBad(buckets) && SameLive(before, buckets, {id})
    {
      if NoBad(before) {
        KeptWithoutBad(before, buckets, id);
      }
    }

    ghost predicate Searching(before: seq<Bucket>, id: NodeId, evicted: bool)
      reads this
    {
      Search(before, buckets, ourId, maxCandidates, id, evicted)
    }

    /** A split inside the loop of mark_validated. */
    method SplitOurs(index: nat, ghost before: seq<Bucket>, id: NodeId)
      requires Searching(before, id, false)
      requires index == BucketIndex(buckets, id) && Covers(buckets[index], ourId)
      requires buckets[index].prefixLen < DEEPEST_PREFIX
      modifies `buckets
      ensures Searching(before, id, false)
      ensures OurDepth(buckets, ourId) == OurDepth(old(buckets), ourId) + 1
    {
      assert BucketOk(buckets[index], ourId);
      SplitShape(buckets, index, ourId);
      SplitSame(buckets, index);
      SplitBucket(index);
      SameLiveKept(before, old(buckets), buckets, id);
    }

    /** The eviction inside the loop of mark_validated. */
    method Evict(index: nat, badId: NodeId, ghost before: seq<Bucket>, id: NodeId)
      requires Searching(before, id, false) && LiveAt(buckets, id).None?
      requires index == BucketIndex(buckets, id)
      requires badId in buckets[index].nodes && IsBad(buckets[index].nodes[badId])
      modifies `buckets
      ensures Searching(before, id, true)
      ensures OurDepth(buckets, ourId) == OurDepth(old(buckets), ourId)
    {
      EvictStep(before, buckets, ourId, maxCandidates, id, badId);
      buckets := buckets[index := Removed(buckets[index], badId)];
    }

    /** The two branches of the loop that make id live: refresh its record, or insert it. */
    method Settle(index: nat, ghost before: seq<Bucket>, id: NodeId, addr: SocketAddr, now: int, ghost evicted: bool)
        returns (inserted: bool)
      requires Searching(before, id, evicted) && id != ourId
      requires index == BucketIndex(buckets, id)
      requires id in buckets[index].nodes || |buckets[index].nodes| < K
      modifies `buckets
      ensures Valid() && Covered(before, id) && Covered(buckets, id)
      ensures Outcome(before, id, addr, now, inserted)
    {
      var bucket := buckets[index];
      assert BucketOk(bucket, ourId);
      InsertKeeps(buckets, index, ourId, id, addr, now);
      if id in bucket.nodes {
        RefreshIsInsert(bucket, ourId, id, addr, now);
        buckets := buckets[index := Refreshed(bucket, id, addr, now)];
        inserted := false;
      } else {
        buckets := buckets[index := Inserted(bucket, id, addr, now)];
        inserted := true;
      }
      SameLiveKept(before, old(buckets), buckets, id);
    }

    /** The last branch: the id has to wait as a candidate. */
    method Defer(index: nat, ghost before: seq<Bucket>, id: NodeId, addr: SocketAddr, now: int)
      requires Searching(before, id, false) && id != ourId
      requires index == BucketIndex(buckets, id)
      requires id !in buckets[index].nodes && |buckets[index].nodes| == K && !Covers(buckets[index], ourId)
      modifies `buckets
      ensures Valid() && Covered(before, id) && Covered(buckets, id)
      ensures Outcome(before, id, addr, now, false)
    {
      var contact := Contact(id, addr, now);
      var added := AddCandidate(contact);
      if added {
        DeferQueued(old(buckets), buckets, ourId, index, contact);
        SameLiveKept(before, old(buckets), buckets, id);
      }
    }

    method MarkValidated(id: NodeId, addr: SocketAddr, now: int) returns (inserted: bool)
      requires Valid()
      modifies `buckets
      ensures Valid()
      ensures id == ourId ==> !inserted && buckets == old(buckets)
      ensures Covered(old(buckets), id) && Covered(buckets, id)
      ensures id != ourId ==> Outcome(old(buckets), id, addr, now, inserted)
      ensures old(NoBad(buckets)) ==> NoBad(buckets) && (id != ourId ==> SameLive(old(buckets), buckets, {id}))
    {
      if id == ourId {
        return false;
      }
      hide Covers, TailZero, Partition, CandidateTotal, Kept, SameCandidates, NoBad, SameLive, DistinctIds;
      ghost var before, evicted := buckets, false;
      assert Searching(before, id, evicted) by {
        SearchStarts(buckets, ourId, maxCandidates, id);
      }
      while true
        invariant Searching(before, id, evicted)
        decreases ID_BITS - OurDepth(buckets, ourId), !evicted
      {
        var index := BucketIndex(buckets, id);
        if id in buckets[index].nodes || |buckets[index].nodes| < K {
          inserted := Settle(index, before, id, addr, now, evicted);
          OutcomeNoBad(before, id, addr, now, inserted);
          return;
        }
        assert BucketOk(buckets[index], ourId);
        if Covers(buckets[index], ourId) && buckets[index].prefixLen < ID_BITS {
          OverflowDepth(buckets[index], ourId, id);
          IndexUnique(buckets, ourId, index);
          SplitOurs(index, before, id);
          continue;
        }
        if exists n | n in buckets[index].nodes :: IsBad(buckets[index].nodes[n]) {
          var badId :| badId in buckets[index].nodes && IsBad(buckets[index].nodes[badId]);
          Evict(index, badId, before, id);
          evicted := true;
          continue;
        }
        Defer(index, before, id, addr, now);
        OutcomeNoBad(before, id, addr, now, false);
        return false;
      }
    }

    /** record_failure: the second unanswered query removes a live contact; nothing else changes. */
    method RecordFailure(id: NodeId)
      requires Valid()
      modifies `buckets
      ensures Valid()
      ensures Covered(old(buckets), id) && Covered(buckets, id)
      ensures LiveAt(old(buckets), id).None? ==> buckets == old(buckets)
      ensures LiveAt(old(buckets), id).Some? ==>
                && var r := LiveAt(old(buckets), id).value;
                && LiveAt(buckets, id) == if r.unanswered == 0 then Some(Record(r.contact, 1)) else None
      ensures SameLive(old(buckets), buckets, {id})
      ensures SameCandidates(old(buckets), buckets, {})
      ensures old(NoBad(buckets)) ==> NoBad(buckets)
    {
      hide Covers, CandidateTotal, BucketOk, OurDepth, SameLive, SameCandidates, NoBad, AfterFailure;
      assert Covered(buckets, id);
      var index := BucketIndex(buckets, id);
      var bucket := buckets[index];
      if id in bucket.nodes {
        FailureShape(buckets, ourId, id);
        FailureKeeps(buckets, id);
        buckets := buckets[index := AfterFailure(bucket, id)];
        if old(NoBad(buckets)) {
          FailureNoBad(old(buckets), buckets, id);
        }
      } else {
        SameItself(buckets, {id});
      }
    }
  }

  /** The first loop of split_bucket: each live record goes to the half that covers it. */
  method DistributeNodes(bucket: Bucket, left0: Bucket, right0: Bucket) returns (left: Bucket, right: Bucket)
    requires bucket.prefixLen < ID_BITS && TailZero(bucket)
    requires forall id | id in bucket.nodes :: Covers(bucket, id)
    requires left0.nodes == map[] && right0.nodes == map[]
    requires right0.prefix == SetBit(bucket.prefix, bucket.prefixLen, true) && right0.prefixLen == bucket.prefixLen + 1
    ensures left == left0.(nodes := Half(bucket, false).nodes)
    ensures right == right0.(nodes := Half(bucket, true).nodes)
  {
    hide Covers, TailZero, BitValue, SetBit;
    left, right := left0, right0;
    var todo := bucket.nodes.Keys;
    while todo != {}
      invariant todo <= bucket.nodes.Keys
      invariant left == left0.(nodes := left.nodes) && right == right0.(nodes := right.nodes)
      invariant left.nodes == map id | id in bucket.nodes.Keys - todo && BitValue(id, bucket.prefixLen) == false :: bucket.nodes[id]
      invariant right.nodes == map id | id in bucket.nodes.Keys - todo && BitValue(id, bucket.prefixLen) == true :: bucket.nodes[id]
    {
      var id :| id in todo;
      RightCovers(bucket, right, id);
      if Covers(right, id) {
        right := right.(nodes := right.nodes[id := bucket.nodes[id]]);
      } else {
        left := left.(nodes := left.nodes[id := bucket.nodes[id]]);
      }
      todo := todo - {id};
    }
  }

  /** The second loop: each candidate goes to the half that covers it, if that has room. */
  method DistributeCandidates(bucket: Bucket, left0: Bucket, right0: Bucket) returns (left: Bucket, right: Bucket)
    requires bucket.prefixLen < ID_BITS && TailZero(bucket)
    requires |bucket.replacements| <= K && forall c | c in bucket.replacements :: Covers(bucket, c.id)
    requires left0.replacements == [] && right0.replacements == []
    requires right0.prefix == SetBit(bucket.prefix, bucket.prefixLen, true) && right0.prefixLen == bucket.prefixLen + 1
    ensures left == left0.(replacements := Half(bucket, false).replacements)
    ensures right == right0.(replacements := Half(bucket, true).replacements)
  {
    hide Covers, TailZero, BitValue, SetBit;
    left, right := left0, right0;
    var bit := bucket.prefixLen;
    for i := 0 to |bucket.replacements|
      invariant left == left0.(replacements := FilterBit(bucket.replacements[..i], bit, false))
      invariant right == right0.(replacements := FilterBit(bucket.replacements[..i], bit, true))
    {
      var contact := bucket.replacements[i];
      RightCovers(bucket, right, contact.id);
      FilterBitCount(bucket.replacements[..i], bit);
      assert bucket.replacements[..i + 1][..i] == bucket.replacements[..i];
      if Covers(right, contact.id) {
        if |right.replacements| < K {
          right := right.(replacements := right.replacements + [contact]);
        }
      } else {
        if |left.replacements| < K {
          left := left.(replacements := left.replacements + [contact]);
        }
      }
    }
    assert bucket.replacements[..|bucket.replacements|] == bucket.replacements;
  }

  lemma RightCovers(b: Bucket, right: Bucket, id: NodeId)
    requires b.prefixLen < ID_BITS && TailZero(b)
    requires right.prefix == SetBit(b.prefix, b.prefixLen, true) && right.prefixLen == b.prefixLen + 1
    requires Covers(b, id)
    ensures Covers(right, id) <==> BitValue(id, b.prefixLen)
  {
    HalfCovers(b, true, id);
  }

  lemma EmptyTable(ourId: NodeId)
    ensures var bs := [Bucket(ZERO_ID, 0, map[], [])]; Shape(bs, ourId) && CandidateTotal(bs) == 0
  {
    var bs := [Bucket(ZERO_ID, 0, map[], [])];
    forall id: NodeId
      ensures Covered(bs, id)
    {
      assert Covers(bs[0], id);
    }
    forall bit: nat | bit < ID_BITS
      ensures !BitValue(ZERO_ID, bit)
    {
      assert ZERO_ID[bit / 8] == 0;
    }
    assert BucketIndex(bs, ourId) == 0;
    assert BucketOk(bs[0], ourId);
    NoCandidates(bs);
  }

  // ------------------------------------------------------------ whole runs

  datatype Operation =
    | Candidate(contact: Contact)
    | Validated(id: NodeId, addr: SocketAddr, now: int)
    | Failure(id: NodeId)

  /** Any sequence of operations on a fresh table keeps the whole invariant, stores no bad contact
      (so mark_validated never evicts), and never needs more than 158 buckets. */
  method RunOperations(ourId: NodeId, maxCandidates: nat, operations: seq<Operation>) returns (table: RoutingTable)
    ensures fresh(table) && table.ourId == ourId && table.maxCandidates == maxCandidates
    ensures table.Valid() && NoBad(table.buckets)
    ensures |table.buckets| <= MAX_BUCKETS
    ensures 1 <= maxCandidates ==> CandidateTotal(table.buckets) <= maxCandidates
    ensures forall c: Contact ::
              && Covered(table.buckets, c.id)
              && (IsCandidate(table.buckets, c) ==> LiveAt(table.buckets, c.id).None? && c.id != ourId)
  {
    table := new RoutingTable(ourId, maxCandidates);
    EmptyNoBad();
    for i := 0 to |operations|
      invariant fresh(table) && table.ourId == ourId && table.maxCandidates == maxCandidates
      invariant table.Valid() && NoBad(table.buckets)
    {
      match operations[i]
      case Candidate(contact) =>
        var _ := table.AddCandidate(contact);
      case Validated(id, addr, now) =>
        var _ := table.MarkValidated(id, addr, now);
      case Failure(id) =>
        table.RecordFailure(id);
    }
    BucketCountBound(table.buckets, ourId);
    forall c: Contact
      ensures Covered(table.buckets, c.id)
      ensures IsCandidate(table.buckets, c) ==> LiveAt(table.buckets, c.id).None? && c.id != ourId
    {
      NeverBoth(table.buckets, ourId, c);
    }
  }

  predicate Touches(op: Operation, id: NodeId)
  {
    (op.Validated? && op.id == id) || (op.Failure? && op.id == id)
  }

  /** Operations that neither validate nor fail id leave its record as it is. */
  method Perform(table: RoutingTable, operations: seq<Operation>, id: NodeId)
    requires table.Valid() && NoBad(table.buckets)
    requires forall k | 0 <= k < |operations| :: !Touches(operations[k], id)
    modifies table
    ensures table.Valid() && NoBad(table.buckets)
    ensures Covered(old(table.buckets), id) && Covered(table.buckets, id)
    ensures LiveAt(table.buckets, id) == LiveAt(old(table.buckets), id)
  {
    assert Covered(table.buckets, id);
    hide TableOk, NoBad, Queued, SameCandidates;
    for i := 0 to |operations|
      invariant table.Valid() && NoBad(table.buckets)
      invariant Covered(old(table.buckets), id) && Covered(table.buckets, id)
      invariant LiveAt(table.buckets, id) == LiveAt(old(table.buckets), id)
    {
      match operations[i]
      case Candidate(contact) =>
        var _ := table.AddCandidate(contact);
      case Validated(other, addr, now) =>
        var _ := table.MarkValidated(other, addr, now);
      case Failure(other) =>
        table.RecordFailure(other);
    }
  }

  /** From its validation on, a live contact outlives one unanswered query and is gone with the second, whatever
      happens to other contacts in between. */
  method FailTwice(table: RoutingTable, id: NodeId, addr: SocketAddr, now: int, between: seq<Operation>, later: seq<Operation>)
      returns (validated: Option<Record>, once: Option<Record>, twice: Option<Record>)
    requires table.Valid() && NoBad(table.buckets) && id != table.ourId
    requires forall k | 0 <= k < |between| :: !Touches(between[k], id)
    requires forall k | 0 <= k < |later| :: !Touches(later[k], id)
    modifies table
    ensures table.Valid() && NoBad(table.buckets)
    ensures Covered(old(table.buckets), id)
    ensures LiveAt(old(table.buckets), id).Some? ==> validated.Some?
    ensures validated.Some? ==>
              && validated.value == Record(Contact(id, addr, now), 0)
              && once == Some(Record(Contact(id, addr, now), 1))
              && twice == None
  {
    hide TableOk, NoBad;
    var _ := table.MarkValidated(id, addr, now);
    validated := LiveAt(table.buckets, id);
    Perform(table, between, id);
    table.RecordFailure(id);
    once := LiveAt(table.buckets, id);
    Perform(table, later, id);
    table.RecordFailure(id);
    twice := LiveAt(table.buckets, id);
  }

  lemma EmptyNoBad()
    ensures NoBad([Bucket(ZERO_ID, 0, map[], [])])
  {
    EmptyTable(ZERO_ID);
    var bs := [Bucket(ZERO_ID, 0, map[], [])];
    assert forall id: NodeId :: Covered(bs, id);
  }
}
