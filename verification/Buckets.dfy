/** Buckets of the routing table and the facts that hold of a list of them. */
module Buckets {
  import opened NodeIds
  import opened Net
  import opened Seqs

  const K: nat := 8
  const BAD_AFTER_FAILURES: nat := 2

  datatype Record = Record(contact: Contact, unanswered: nat)

  datatype Bucket = Bucket(prefix: NodeId, prefixLen: nat, nodes: map<NodeId, Record>, replacements: seq<Contact>)

  predicate Covers(b: Bucket, id: NodeId)
  {
    b.prefixLen <= ID_BITS && SharesPrefix(b.prefix, b.prefixLen, id)
  }

  /** What every bucket keeps: zero bits after the prefix, at most K live contacts and K
      candidates, all of them foreign and under the prefix, no id twice. */
  ghost predicate BucketOk(b: Bucket, ourId: NodeId)
  {
    && TailZero(b)
    && |b.nodes| <= K
    && |b.replacements| <= K
    && (forall id | id in b.nodes :: Covers(b, id) && id != ourId && b.nodes[id].contact.id == id)
    && (forall c | c in b.replacements :: Covers(b, c.id) && c.id != ourId && c.id !in b.nodes)
    && DistinctIds(b.replacements)
  }

  predicate DistinctIds(cs: seq<Contact>)
  {
    forall i, j | 0 <= i < j < |cs| :: cs[i].id != cs[j].id
  }

  // ------------------------------------------------------------ the partition

  /** Each id is covered by exactly one bucket. */
  ghost predicate Partition(bs: seq<Bucket>)
  {
    && (forall id: NodeId :: Covered(bs, id))
    && (forall id: NodeId, i, j | 0 <= i < j < |bs| :: !(Covers(bs[i], id) && Covers(bs[j], id)))
  }

  ghost predicate Covered(bs: seq<Bucket>, id: NodeId)
  {
    exists i :: 0 <= i < |bs| && Covers(bs[i], id)
  }

  /** The position of the first bucket that covers id. */
  function BucketIndex(bs: seq<Bucket>, id: NodeId): (i: nat)
    requires Covered(bs, id)
    ensures i < |bs| && Covers(bs[i], id)
    ensures forall j | 0 <= j < i :: !Covers(bs[j], id)
  {
    if Covers(bs[0], id) then 0
    else
      assert Covered(bs[1..], id) by {
        var k :| 0 <= k < |bs| && Covers(bs[k], id);
        assert bs[1..][k - 1] == bs[k];
      }
      1 + BucketIndex(bs[1..], id)
  }

  lemma IndexUnique(bs: seq<Bucket>, id: NodeId, i: nat)
    requires Partition(bs) && i < |bs| && Covers(bs[i], id)
    ensures Covered(bs, id) && BucketIndex(bs, id) == i
  {
  }

  ghost predicate SamePrefixes(a: seq<Bucket>, b: seq<Bucket>)
  {
    |a| == |b| && forall i | 0 <= i < |a| :: a[i].prefix == b[i].prefix && a[i].prefixLen == b[i].prefixLen
  }

  lemma SamePrefixesCover(a: seq<Bucket>, b: seq<Bucket>, id: NodeId)
    requires SamePrefixes(a, b)
    ensures forall i | 0 <= i < |a| :: Covers(a[i], id) == Covers(b[i], id)
    ensures Covered(a, id) ==> Covered(b, id) && BucketIndex(a, id) == BucketIndex(b, id)
  {
    if Covered(a, id) {
      var i := BucketIndex(a, id);
      assert Covers(b[i], id);
    }
  }

  /** Changing what buckets hold, not their prefixes, keeps the partition. */
  lemma SamePrefixesPartition(a: seq<Bucket>, b: seq<Bucket>)
    requires Partition(a) && SamePrefixes(a, b)
    ensures Partition(b)
    ensures forall id: NodeId :: Covered(a, id) && BucketIndex(a, id) == BucketIndex(b, id)
  {
    forall id: NodeId
      ensures Covered(a, id) && Covered(b, id) && BucketIndex(a, id) == BucketIndex(b, id)
    {
      SamePrefixesCover(a, b, id);
    }
    forall id: NodeId, i, j | 0 <= i < j < |b|
      ensures !(Covers(b[i], id) && Covers(b[j], id))
    {
      SamePrefixesCover(a, b, id);
    }
  }

  // ------------------------------------------------------------ what a table holds

  /** The live record of id, if it has one (RoutingTable::contains). */
  function LiveAt(bs: seq<Bucket>, id: NodeId): Option<Record>
    requires Covered(bs, id)
  {
    var b := bs[BucketIndex(bs, id)];
    if id in b.nodes then Some(b.nodes[id]) else None
  }

  /** c is queued as a candidate in the bucket of its id. */
  predicate IsCandidate(bs: seq<Bucket>, c: Contact)
    requires Covered(bs, c.id)
  {
    c in bs[BucketIndex(bs, c.id)].replacements
  }

  function CandidateTotal(bs: seq<Bucket>): nat
  {
    if |bs| == 0 then 0 else |bs[0].replacements| + CandidateTotal(bs[1..])
  }

  function LiveTotal(bs: seq<Bucket>): nat
  {
    if |bs| == 0 then 0 else |bs[0].nodes| + LiveTotal(bs[1..])
  }

  lemma {:induction false} CandidateTotalConcat(a: seq<Bucket>, b: seq<Bucket>)
    ensures CandidateTotal(a + b) == CandidateTotal(a) + CandidateTotal(b)
  {
    if |a| == 0 {
      assert a + b == b;
    } else {
      assert (a + b)[1..] == a[1..] + b;
      CandidateTotalConcat(a[1..], b);
    }
  }

  lemma CandidateTotalUpdate(bs: seq<Bucket>, i: nat, b: Bucket)
    requires i < |bs|
    ensures CandidateTotal(bs[i := b]) == CandidateTotal(bs) - |bs[i].replacements| + |b.replacements|
    ensures |bs[i].replacements| <= CandidateTotal(bs)
  {
    assert bs == bs[..i] + ([bs[i]] + bs[i + 1..]);
    assert bs[i := b] == bs[..i] + ([b] + bs[i + 1..]);
    CandidateTotalConcat(bs[..i], [bs[i]] + bs[i + 1..]);
    CandidateTotalConcat(bs[..i], [b] + bs[i + 1..]);
    CandidateTotalConcat([bs[i]], bs[i + 1..]);
    CandidateTotalConcat([b], bs[i + 1..]);
  }

  lemma {:induction false} NoCandidates(bs: seq<Bucket>)
    requires forall i | 0 <= i < |bs| :: |bs[i].replacements| == 0
    ensures CandidateTotal(bs) == 0
  {
    if |bs| > 0 {
      NoCandidates(bs[1..]);
    }
  }

  // ------------------------------------------------------------ splitting

  function FilterBit(cs: seq<Contact>, bit: nat, one: bool): (r: seq<Contact>)
    requires bit < ID_BITS
    ensures |r| <= |cs|
  {
    if |cs| == 0 then []
    else
      var rest := FilterBit(cs[..|cs| - 1], bit, one);
      if BitValue(cs[|cs| - 1].id, bit) == one then rest + [cs[|cs| - 1]] else rest
  }

  /** The half of a split bucket whose ids have the given bit after the old prefix. */
  function Half(b: Bucket, one: bool): Bucket
    requires b.prefixLen < ID_BITS
  {
    Bucket(if one then SetBit(b.prefix, b.prefixLen, true) else b.prefix,
           b.prefixLen + 1,
           map id | id in b.nodes && BitValue(id, b.prefixLen) == one :: b.nodes[id],
           FilterBit(b.replacements, b.prefixLen, one))
  }

  function Split(bs: seq<Bucket>, i: nat): seq<Bucket>
    requires i < |bs| && bs[i].prefixLen < ID_BITS
  {
    bs[..i] + [Half(bs[i], false), Half(bs[i], true)] + bs[i + 1..]
  }

  lemma {:induction false} FilterBitMembers(cs: seq<Contact>, bit: nat, one: bool)
    requires bit < ID_BITS
    ensures forall c :: c in FilterBit(cs, bit, one) <==> c in cs && BitValue(c.id, bit) == one
    ensures DistinctIds(cs) ==> DistinctIds(FilterBit(cs, bit, one))
  {
    if |cs| > 0 {
      FilterBitMembers(cs[..|cs| - 1], bit, one);
      assert cs == cs[..|cs| - 1] + [cs[|cs| - 1]];
    }
  }

  lemma {:induction false} FilterBitCount(cs: seq<Contact>, bit: nat)
    requires bit < ID_BITS
    ensures |FilterBit(cs, bit, false)| + |FilterBit(cs, bit, true)| == |cs|
  {
    if |cs| > 0 {
      FilterBitCount(cs[..|cs| - 1], bit);
    }
  }

  /** A half covers exactly the ids of the whole that have its bit. */
  lemma HalfCovers(b: Bucket, one: bool, id: NodeId)
    requires b.prefixLen < ID_BITS
    requires forall bit: nat | b.prefixLen <= bit < ID_BITS :: !BitValue(b.prefix, bit)
    ensures Covers(Half(b, one), id) <==> Covers(b, id) && BitValue(id, b.prefixLen) == one
  {
    var h := Half(b, one);
    forall bit: nat | bit <= b.prefixLen
      ensures BitValue(h.prefix, bit) == if bit == b.prefixLen then one else BitValue(b.prefix, bit)
    {
      if one {
        SetBitValue(b.prefix, b.prefixLen, bit, true);
      }
    }
    if Covers(h, id) {
      assert BitValue(h.prefix, b.prefixLen) == BitValue(id, b.prefixLen);
    }
  }

  lemma HalfOk(b: Bucket, ourId: NodeId, one: bool)
    requires b.prefixLen < ID_BITS && BucketOk(b, ourId)
    ensures BucketOk(Half(b, one), ourId)
  {
    var h := Half(b, one);
    forall id: NodeId
      ensures Covers(h, id) <==> Covers(b, id) && BitValue(id, b.prefixLen) == one
    {
      HalfCovers(b, one, id);
    }
    forall bit: nat | h.prefixLen <= bit < ID_BITS
      ensures !BitValue(h.prefix, bit)
    {
      if one {
        SetBitValue(b.prefix, b.prefixLen, bit, true);
      }
    }
    SubsetSize(h.nodes.Keys, b.nodes.Keys);
    FilterBitMembers(b.replacements, b.prefixLen, one);
  }

  /** Where the buckets of a split list sit: the two halves at i and i + 1, the others shifted. */
  lemma SplitAt(bs: seq<Bucket>, i: nat)
    requires i < |bs| && bs[i].prefixLen < ID_BITS
    ensures var s := Split(bs, i);
            && |s| == |bs| + 1
            && s[i] == Half(bs[i], false) && s[i + 1] == Half(bs[i], true)
            && (forall k | 0 <= k < i :: s[k] == bs[k])
            && (forall k | i + 2 <= k < |s| :: s[k] == bs[k - 1])
            && (forall k | i < k < |bs| :: s[k + 1] == bs[k])
  {
  }

  ghost predicate TailZero(b: Bucket)
  {
    b.prefixLen <= ID_BITS && forall bit: nat | b.prefixLen <= bit < ID_BITS :: !BitValue(b.prefix, bit)
  }

  /** The index a split moves id to. */
  function SplitIndex(bs: seq<Bucket>, i: nat, id: NodeId): nat
    requires Covered(bs, id) && i < |bs| && bs[i].prefixLen < ID_BITS
  {
    var k := BucketIndex(bs, id);
    if k < i then k else if k > i then k + 1 else if BitValue(id, bs[i].prefixLen) then i + 1 else i
  }

  lemma SplitCovers(bs: seq<Bucket>, i: nat, id: NodeId)
    requires Partition(bs) && i < |bs| && bs[i].prefixLen < ID_BITS && TailZero(bs[i])
    ensures Covered(bs, id)
    ensures forall m | 0 <= m < |bs| + 1 :: Covers(Split(bs, i)[m], id) <==> m == SplitIndex(bs, i, id)
  {
    SplitAt(bs, i);
    HalfCovers(bs[i], false, id);
    HalfCovers(bs[i], true, id);
    assert Covered(bs, id);
    forall k | 0 <= k < |bs|
      ensures Covers(bs[k], id) <==> k == BucketIndex(bs, id)
    {
    }
  }

  lemma SplitPartition(bs: seq<Bucket>, i: nat)
    requires Partition(bs) && i < |bs| && bs[i].prefixLen < ID_BITS && TailZero(bs[i])
    ensures Partition(Split(bs, i))
    ensures forall id: NodeId :: Covered(bs, id) && BucketIndex(Split(bs, i), id) == SplitIndex(bs, i, id)
  {
    var s := Split(bs, i);
    SplitAt(bs, i);
    forall id: NodeId
      ensures Covered(bs, id) && Covered(s, id) && BucketIndex(s, id) == SplitIndex(bs, i, id)
    {
      SplitCovers(bs, i, id);
      var m := SplitIndex(bs, i, id);
      assert Covers(s[m], id);
    }
    forall id: NodeId, k, m | 0 <= k < m < |s|
      ensures !(Covers(s[k], id) && Covers(s[m], id))
    {
      SplitCovers(bs, i, id);
    }
  }

  /** Splitting keeps the partition and loses nothing: every live record and every candidate stays. */
  lemma SplitKeeps(bs: seq<Bucket>, i: nat)
    requires Partition(bs) && i < |bs| && bs[i].prefixLen < ID_BITS && TailZero(bs[i])
    ensures Partition(Split(bs, i))
    ensures forall id: NodeId :: Covered(bs, id) && LiveAt(Split(bs, i), id) == LiveAt(bs, id)
    ensures forall c: Contact :: Covered(bs, c.id) && (IsCandidate(Split(bs, i), c) <==> IsCandidate(bs, c))
    ensures CandidateTotal(Split(bs, i)) == CandidateTotal(bs)
  {
    hide Covers, TailZero, BitValue, BucketIndex, CandidateTotal, LiveAt, IsCandidate, Split;
    SplitPartition(bs, i);
    SplitTotal(bs, i);
    forall id: NodeId
      ensures Covered(bs, id) && LiveAt(Split(bs, i), id) == LiveAt(bs, id)
    {
      assert Covered(bs, id) && Covered(Split(bs, i), id);
      SplitLiveAt(bs, i, id);
    }
    forall c: Contact
      ensures Covered(bs, c.id) && (IsCandidate(Split(bs, i), c) <==> IsCandidate(bs, c))
    {
      assert Covered(bs, c.id) && Covered(Split(bs, i), c.id);
      SplitCandidateAt(bs, i, c);
    }
  }

  /** The bucket of id after a split: the same bucket, or the half with the bit of id. */
  lemma SplitBucketOf(bs: seq<Bucket>, i: nat, id: NodeId)
    requires i < |bs| && bs[i].prefixLen < ID_BITS
    requires Covered(bs, id) && Covered(Split(bs, i), id)
    requires BucketIndex(Split(bs, i), id) == SplitIndex(bs, i, id)
    ensures Split(bs, i)[BucketIndex(Split(bs, i), id)]
            == if BucketIndex(bs, id) == i then Half(bs[i], BitValue(id, bs[i].prefixLen)) else bs[BucketIndex(bs, id)]
  {
    hide BucketIndex, Covered, Half, BitValue;
    SplitAt(bs, i);
  }

  lemma SplitLiveAt(bs: seq<Bucket>, i: nat, id: NodeId)
    requires i < |bs| && bs[i].prefixLen < ID_BITS
    requires Covered(bs, id) && Covered(Split(bs, i), id)
    requires BucketIndex(Split(bs, i), id) == SplitIndex(bs, i, id)
    ensures LiveAt(Split(bs, i), id) == LiveAt(bs, id)
  {
    hide BucketIndex, Covered, BitValue, SplitIndex, Split;
    SplitBucketOf(bs, i, id);
  }

  lemma SplitCandidateAt(bs: seq<Bucket>, i: nat, c: Contact)
    requires i < |bs| && bs[i].prefixLen < ID_BITS
    requires Covered(bs, c.id) && Covered(Split(bs, i), c.id)
    requires BucketIndex(Split(bs, i), c.id) == SplitIndex(bs, i, c.id)
    ensures IsCandidate(Split(bs, i), c) <==> IsCandidate(bs, c)
  {
    hide BucketIndex, Covered, BitValue, SplitIndex, Split;
    SplitBucketOf(bs, i, c.id);
    FilterBitMembers(bs[i].replacements, bs[i].prefixLen, BitValue(c.id, bs[i].prefixLen));
  }

  lemma SplitTotal(bs: seq<Bucket>, i: nat)
    requires i < |bs| && bs[i].prefixLen < ID_BITS
    ensures CandidateTotal(Split(bs, i)) == CandidateTotal(bs)
  {
    TwoForOne(bs, i, Half(bs[i], false), Half(bs[i], true));
    FilterBitCount(bs[i].replacements, bs[i].prefixLen);
  }

  lemma TwoForOne(bs: seq<Bucket>, i: nat, x: Bucket, y: Bucket)
    requires i < |bs|
    ensures CandidateTotal(bs[..i] + [x, y] + bs[i + 1..])
            == CandidateTotal(bs) - |bs[i].replacements| + |x.replacements| + |y.replacements|
  {
    assert bs == bs[..i] + ([bs[i]] + bs[i + 1..]);
    assert bs[..i] + [x, y] + bs[i + 1..] == bs[..i] + ([x, y] + bs[i + 1..]);
    CandidateTotalConcat(bs[..i], [bs[i]] + bs[i + 1..]);
    CandidateTotalConcat(bs[..i], [x, y] + bs[i + 1..]);
    CandidateTotalConcat([bs[i]], bs[i + 1..]);
    CandidateTotalConcat([x, y], bs[i + 1..]);
    assert [x, y][1..] == [y];
  }
}
