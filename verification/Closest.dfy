/** closest_nodes and closest_candidates: the XOR-nearest contacts of the table. */
module Closest {
  import opened NodeIds
  import opened Net
  import opened Buckets
  import opened Routing

  predicate Nearer(a: Contact, b: Contact, target: NodeId)
  {
    LexLess(Distance(a.id, target), Distance(b.id, target))
  }

  /** Strictly increasing distance from target. */
  ghost predicate Increasing(cs: seq<Contact>, target: NodeId)
  {
    forall i, j | 0 <= i < j < |cs| :: Nearer(cs[i], cs[j], target)
  }

  lemma NearerTotal(a: Contact, b: Contact, target: NodeId)
    requires a.id != b.id
    ensures Nearer(a, b, target) || Nearer(b, a, target)
  {
    LexTotal(Distance(a.id, target), Distance(b.id, target));
    if Distance(a.id, target) == Distance(b.id, target) {
      DistanceInjective(a.id, b.id, target);
    }
  }

  // ------------------------------------------------------------ sort_by_key

  /** The stable sort by distance. */
  function SortByDistance(cs: seq<Contact>, target: NodeId): seq<Contact>
  {
    if |cs| == 0 then [] else Insert(cs[0], SortByDistance(cs[1..], target), target)
  }

  function Insert(c: Contact, sorted: seq<Contact>, target: NodeId): seq<Contact>
  {
    if |sorted| == 0 || !Nearer(sorted[0], c, target) then [c] + sorted
    else [sorted[0]] + Insert(c, sorted[1..], target)
  }

  /** c in front of contacts that are all farther. */
  lemma InFront(c: Contact, sorted: seq<Contact>, target: NodeId)
    requires Increasing(sorted, target) && forall d | d in sorted :: Nearer(c, d, target)
    ensures Increasing([c] + sorted, target)
  {
    hide Nearer;
    var r := [c] + sorted;
    forall i, j | 0 <= i < j < |r|
      ensures Nearer(r[i], r[j], target)
    {
      assert r[j] == sorted[j - 1];
      if i > 0 {
        assert r[i] == sorted[i - 1];
      }
    }
  }

  /** Nearer than the first is nearer than all. */
  lemma NearerThanAll(c: Contact, sorted: seq<Contact>, target: NodeId)
    requires Increasing(sorted, target) && |sorted| > 0 && Nearer(c, sorted[0], target)
    ensures forall d | d in sorted :: Nearer(c, d, target)
  {
    forall d | d in sorted
      ensures Nearer(c, d, target)
    {
      var j :| 0 <= j < |sorted| && sorted[j] == d;
      if j > 0 {
        LexTransitive(Distance(c.id, target), Distance(sorted[0].id, target), Distance(sorted[j].id, target));
      }
    }
  }

  lemma {:induction false} InsertSorts(c: Contact, sorted: seq<Contact>, target: NodeId)
    requires Increasing(sorted, target)
    requires forall d | d in sorted :: d.id != c.id
    ensures var r := Insert(c, sorted, target);
            && |r| == |sorted| + 1
            && Increasing(r, target)
            && (forall d :: d in r <==> d == c || d in sorted)
  {
    hide Nearer;
    if |sorted| == 0 {
    } else if !Nearer(sorted[0], c, target) {
      NearerTotal(c, sorted[0], target);
      NearerThanAll(c, sorted, target);
      InFront(c, sorted, target);
    } else {
      var first, tail := sorted[0], sorted[1..];
      assert sorted == [first] + tail;
      InsertSorts(c, tail, target);
      var rest := Insert(c, tail, target);
      assert forall d | d in tail :: Nearer(first, d, target);
      InFront(first, rest, target);
      assert forall d :: d in [first] + rest <==> d == first || d in rest;
    }
  }

  lemma {:induction false} SortSorts(cs: seq<Contact>, target: NodeId)
    requires DistinctIds(cs)
    ensures var r := SortByDistance(cs, target);
            |r| == |cs| && Increasing(r, target) && (forall d :: d in r <==> d in cs)
  {
    if |cs| > 0 {
      SortSorts(cs[1..], target);
      InsertSorts(cs[0], SortByDistance(cs[1..], target), target);
      assert cs == [cs[0]] + cs[1..];
    }
  }

  function Nearest(cs: seq<Contact>, target: NodeId, count: nat): seq<Contact>
  {
    var all := SortByDistance(cs, target);
    if count < |all| then all[..count] else all
  }

  /** Sorting and truncating picks exactly the nearest contacts: as many as asked for or as there are,
      in strictly increasing distance, and every contact left out is farther than every one picked. */
  lemma NearestPicks(cs: seq<Contact>, target: NodeId, count: nat)
    requires DistinctIds(cs)
    ensures var r := Nearest(cs, target, count);
            && |r| == Min(count, |cs|)
            && Increasing(r, target)
            && (forall c | c in r :: c in cs)
            && (forall c, d | c in r && d in cs && d !in r :: Nearer(c, d, target))
  {
    SortSorts(cs, target);
    var all := SortByDistance(cs, target);
    var r := Nearest(cs, target, count);
    forall c, d | c in r && d in cs && d !in r
      ensures Nearer(c, d, target)
    {
      var i :| 0 <= i < |r| && r[i] == c;
      var j :| 0 <= j < |all| && all[j] == d;
      assert j >= |r|;
      assert all[i] == c;
    }
  }

  // ------------------------------------------------------------ the contacts of a table

  /** The values of a bucket's map; their order does not matter to a sort on distinct distances. */
  ghost function Contacts(nodes: map<NodeId, Record>, keys: set<NodeId>): (r: seq<Contact>)
    requires keys <= nodes.Keys
    ensures |r| == |keys|
  {
    if keys == {} then []
    else
      var id :| id in keys;
      [nodes[id].contact] + Contacts(nodes, keys - {id})
  }

  ghost function LiveContacts(bs: seq<Bucket>): seq<Contact>
  {
    if |bs| == 0 then [] else Contacts(bs[0].nodes, bs[0].nodes.Keys) + LiveContacts(bs[1..])
  }

  function CandidateContacts(bs: seq<Bucket>): seq<Contact>
  {
    if |bs| == 0 then [] else bs[0].replacements + CandidateContacts(bs[1..])
  }

  ghost function ClosestNodes(bs: seq<Bucket>, target: NodeId, count: nat): seq<Contact>
  {
    Nearest(LiveContacts(bs), target, count)
  }

  function ClosestCandidates(bs: seq<Bucket>, target: NodeId, count: nat): seq<Contact>
  {
    Nearest(CandidateContacts(bs), target, count)
  }

  ghost predicate OwnIds(nodes: map<NodeId, Record>)
  {
    forall id | id in nodes :: nodes[id].contact.id == id
  }

  lemma {:induction false} ContactsMembers(nodes: map<NodeId, Record>, keys: set<NodeId>)
    requires keys <= nodes.Keys && OwnIds(nodes)
    ensures forall c :: c in Contacts(nodes, keys) <==> c.id in keys && nodes[c.id].contact == c
    ensures DistinctIds(Contacts(nodes, keys))
  {
    if keys != {} {
      var id :| id in keys && Contacts(nodes, keys) == [nodes[id].contact] + Contacts(nodes, keys - {id});
      ContactsMembers(nodes, keys - {id});
    }
  }

  /** Buckets whose covered ids do not overlap. */
  ghost predicate Apart(bs: seq<Bucket>)
  {
    forall id: NodeId, i, j | 0 <= i < j < |bs| :: !(Covers(bs[i], id) && Covers(bs[j], id))
  }

  lemma DistinctConcat(a: seq<Contact>, b: seq<Contact>)
    requires DistinctIds(a) && DistinctIds(b)
    requires forall c, d | c in a && d in b :: c.id != d.id
    ensures DistinctIds(a + b)
  {
    var s := a + b;
    forall i, j | 0 <= i < j < |s|
      ensures s[i].id != s[j].id
    {
      if j < |a| {
        assert s[i] == a[i] && s[j] == a[j];
      } else if i >= |a| {
        assert s[i] == b[i - |a|] && s[j] == b[j - |a|];
      } else {
        assert s[i] == a[i] && s[j] == b[j - |a|];
      }
    }
  }

  ghost predicate HoldsLive(bs: seq<Bucket>, k: nat, c: Contact)
  {
    k < |bs| && c.id in bs[k].nodes && bs[k].nodes[c.id].contact == c
  }

  ghost predicate InLive(bs: seq<Bucket>, c: Contact)
  {
    exists k: nat :: HoldsLive(bs, k, c)
  }

  lemma InLiveStep(bs: seq<Bucket>, c: Contact)
    requires |bs| > 0
    ensures InLive(bs, c) <==> HoldsLive(bs, 0, c) || InLive(bs[1..], c)
  {
    if k: nat :| HoldsLive(bs, k, c) {
      assert k > 0 ==> HoldsLive(bs[1..], k - 1, c);
    }
    if k: nat :| HoldsLive(bs[1..], k, c) {
      assert HoldsLive(bs, k + 1, c);
    }
  }

  lemma {:induction false} LiveContactsMembers(bs: seq<Bucket>, ourId: NodeId)
    requires AllOk(bs, ourId)
    ensures forall c :: c in LiveContacts(bs) <==> InLive(bs, c)
    ensures |LiveContacts(bs)| == LiveTotal(bs)
  {
    hide InLive;
    if |bs| == 0 {
      forall c: Contact
        ensures !InLive(bs, c)
      {
        NothingLive(bs, c);
      }
    } else {
      var head, rest := Contacts(bs[0].nodes, bs[0].nodes.Keys), LiveContacts(bs[1..]);
      assert BucketOk(bs[0], ourId);
      ContactsMembers(bs[0].nodes, bs[0].nodes.Keys);
      LiveContactsMembers(bs[1..], ourId);
      forall c
        ensures c in head + rest <==> InLive(bs, c)
      {
        InLiveStep(bs, c);
      }
    }
  }

  lemma NothingLive(bs: seq<Bucket>, c: Contact)
    requires |bs| == 0
    ensures !InLive(bs, c)
  {
  }

  lemma LiveApart(bs: seq<Bucket>, ourId: NodeId, c: Contact, d: Contact)
    requires AllOk(bs, ourId) && Apart(bs) && |bs| > 0
    requires HoldsLive(bs, 0, c) && InLive(bs[1..], d)
    ensures c.id != d.id
  {
    var k: nat :| HoldsLive(bs[1..], k, d);
    assert bs[1..][k] == bs[k + 1];
    assert BucketOk(bs[0], ourId) && BucketOk(bs[k + 1], ourId);
    assert Covers(bs[0], c.id) && Covers(bs[k + 1], d.id);
  }

  lemma {:induction false} LiveContactsDistinct(bs: seq<Bucket>, ourId: NodeId)
    requires AllOk(bs, ourId) && Apart(bs)
    ensures DistinctIds(LiveContacts(bs))
  {
    hide Covers, InLive, DistinctIds;
    if |bs| == 0 {
      NothingDistinct([]);
    } else {
      var head, rest := Contacts(bs[0].nodes, bs[0].nodes.Keys), LiveContacts(bs[1..]);
      assert BucketOk(bs[0], ourId);
      ContactsMembers(bs[0].nodes, bs[0].nodes.Keys);
      LiveContactsMembers(bs[1..], ourId);
      LiveContactsDistinct(bs[1..], ourId);
      forall c, d | c in head && d in rest
        ensures c.id != d.id
      {
        LiveApart(bs, ourId, c, d);
      }
      DistinctConcat(head, rest);
    }
  }

  lemma NothingDistinct(cs: seq<Contact>)
    requires |cs| == 0
    ensures DistinctIds(cs)
  {
  }

  ghost predicate HoldsCandidate(bs: seq<Bucket>, k: nat, c: Contact)
  {
    k < |bs| && c in bs[k].replacements
  }

  lemma {:induction false} CandidateContactsAt(bs: seq<Bucket>, c: Contact)
    ensures c in CandidateContacts(bs) <==> exists k: nat :: HoldsCandidate(bs, k, c)
  {
    if |bs| > 0 {
      var rest := bs[1..];
      CandidateContactsAt(rest, c);
      assert c in CandidateContacts(bs) <==> c in bs[0].replacements || c in CandidateContacts(rest);
      assert forall k: nat :: HoldsCandidate(rest, k, c) <==> HoldsCandidate(bs, k + 1, c);
      assert HoldsCandidate(bs, 0, c) <==> c in bs[0].replacements;
      if k: nat :| HoldsCandidate(bs, k, c) {
        assert k == 0 || HoldsCandidate(rest, k - 1, c);
      }
    }
  }

  lemma ApartCandidates(bs: seq<Bucket>, ourId: NodeId, c: Contact, k: nat, d: Contact)
    requires AllOk(bs, ourId) && Apart(bs) && HoldsCandidate(bs, 0, c) && HoldsCandidate(bs, k, d) && k > 0
    ensures c.id != d.id
  {
    hide Covers;
    assert BucketOk(bs[0], ourId) && BucketOk(bs[k], ourId);
    assert Covers(bs[0], c.id) && Covers(bs[k], d.id);
  }

  lemma RestApart(bs: seq<Bucket>, ourId: NodeId)
    requires AllOk(bs, ourId) && Apart(bs) && |bs| > 0
    ensures AllOk(bs[1..], ourId) && Apart(bs[1..])
  {
    hide Covers, BucketOk;
    var rest := bs[1..];
    assert forall k | 0 <= k < |rest| :: rest[k] == bs[k + 1];
  }

  lemma HeadApart(bs: seq<Bucket>, ourId: NodeId, c: Contact, d: Contact)
    requires AllOk(bs, ourId) && Apart(bs) && |bs| > 0 && c in bs[0].replacements && d in CandidateContacts(bs[1..])
    ensures c.id != d.id
  {
    hide AllOk, Apart, CandidateContacts;
    CandidateContactsAt(bs[1..], d);
    var k: nat :| HoldsCandidate(bs[1..], k, d);
    assert HoldsCandidate(bs, 0, c) && HoldsCandidate(bs, k + 1, d);
    ApartCandidates(bs, ourId, c, k + 1, d);
  }

  lemma {:induction false} CandidateContactsMembers(bs: seq<Bucket>, ourId: NodeId)
    requires AllOk(bs, ourId) && Apart(bs)
    ensures DistinctIds(CandidateContacts(bs)) && |CandidateContacts(bs)| == CandidateTotal(bs)
  {
    hide Covers, TailZero, Apart;
    if |bs| > 0 {
      var head, rest := bs[0].replacements, CandidateContacts(bs[1..]);
      assert BucketOk(bs[0], ourId);
      RestApart(bs, ourId);
      CandidateContactsMembers(bs[1..], ourId);
      hide BucketOk, AllOk, DistinctIds;
      forall c, d | c in head && d in rest
        ensures c.id != d.id
      {
        HeadApart(bs, ourId, c, d);
      }
      DistinctConcat(head, rest);
    }
  }

  /** c is the contact of a live record. */
  predicate IsLiveContact(bs: seq<Bucket>, c: Contact)
    requires Covered(bs, c.id)
  {
    LiveAt(bs, c.id).Some? && LiveAt(bs, c.id).value.contact == c
  }

  lemma LiveContactAt(bs: seq<Bucket>, ourId: NodeId, c: Contact)
    requires Partition(bs) && AllOk(bs, ourId)
    ensures Covered(bs, c.id)
    ensures IsLiveContact(bs, c) <==> InLive(bs, c)
  {
    assert Covered(bs, c.id);
    assert LiveAt(bs, c.id).Some? && LiveAt(bs, c.id).value.contact == c ==> HoldsLive(bs, BucketIndex(bs, c.id), c);
    if k: nat :| HoldsLive(bs, k, c) {
      assert BucketOk(bs[k], ourId);
      IndexUnique(bs, c.id, k);
    }
  }

  lemma LiveContactsExact(bs: seq<Bucket>, ourId: NodeId)
    requires Partition(bs) && AllOk(bs, ourId)
    ensures DistinctIds(LiveContacts(bs)) && |LiveContacts(bs)| == LiveTotal(bs)
    ensures forall c: Contact :: Covered(bs, c.id) && (c in LiveContacts(bs) <==> IsLiveContact(bs, c))
  {
    hide InLive, AllOk;
    LiveContactsMembers(bs, ourId);
    LiveContactsDistinct(bs, ourId);
    forall c: Contact
      ensures Covered(bs, c.id) && (c in LiveContacts(bs) <==> IsLiveContact(bs, c))
    {
      LiveContactAt(bs, ourId, c);
    }
  }

  /** closest_nodes returns exactly the min(count, live) live contacts that are least in XOR distance,
      in strictly increasing distance. */
  lemma ClosestNodesExact(bs: seq<Bucket>, ourId: NodeId, target: NodeId, count: nat)
    requires Shape(bs, ourId)
    ensures var r := ClosestNodes(bs, target, count);
            && |r| == Min(count, LiveTotal(bs))
            && Increasing(r, target)
            && (forall c | c in r :: Covered(bs, c.id) && IsLiveContact(bs, c))
            && (forall c, d: Contact | c in r && d !in r ::
                  Covered(bs, d.id) && (IsLiveContact(bs, d) ==> Nearer(c, d, target)))
  {
    LiveContactsExact(bs, ourId);
    NearestPicks(LiveContacts(bs), target, count);
  }

  lemma CandidateAt(bs: seq<Bucket>, ourId: NodeId, c: Contact)
    requires Partition(bs) && AllOk(bs, ourId)
    ensures Covered(bs, c.id)
    ensures c in CandidateContacts(bs) <==> IsCandidate(bs, c)
  {
    hide Covers, TailZero, CandidateContacts;
    CandidateContactsAt(bs, c);
    assert Covered(bs, c.id);
    assert IsCandidate(bs, c) <==> HoldsCandidate(bs, BucketIndex(bs, c.id), c);
    if k: nat :| HoldsCandidate(bs, k, c) {
      assert BucketOk(bs[k], ourId);
      IndexUnique(bs, c.id, k);
    }
  }

  lemma CandidateContactsExact(bs: seq<Bucket>, ourId: NodeId)
    requires Partition(bs) && AllOk(bs, ourId)
    ensures DistinctIds(CandidateContacts(bs)) && |CandidateContacts(bs)| == CandidateTotal(bs)
    ensures forall c: Contact :: Covered(bs, c.id) && (c in CandidateContacts(bs) <==> IsCandidate(bs, c))
  {
    hide AllOk, IsCandidate, CandidateContacts, Covers;
    CandidateContactsMembers(bs, ourId);
    forall c: Contact
      ensures Covered(bs, c.id) && (c in CandidateContacts(bs) <==> IsCandidate(bs, c))
    {
      CandidateAt(bs, ourId, c);
    }
  }

  /** closest_candidates does the same with the candidates of all queues. */
  lemma ClosestCandidatesExact(bs: seq<Bucket>, ourId: NodeId, target: NodeId, count: nat)
    requires Shape(bs, ourId)
    ensures var r := ClosestCandidates(bs, target, count);
            && |r| == Min(count, CandidateTotal(bs))
            && Increasing(r, target)
            && (forall c | c in r :: Covered(bs, c.id) && IsCandidate(bs, c))
            && (forall c, d: Contact | c in r && d !in r ::
                  Covered(bs, d.id) && (IsCandidate(bs, d) ==> Nearer(c, d, target)))
  {
    hide IsCandidate, Covers, BucketIndex, AllOk, CandidateContacts, CandidateTotal;
    CandidateContactsExact(bs, ourId);
    NearestPicks(CandidateContacts(bs), target, count);
  }

  /** Contacts of the target's own bucket come before the contacts of every other bucket. */
  lemma OwnBucketFirst(bs: seq<Bucket>, ourId: NodeId, target: NodeId, count: nat, i: nat, j: nat)
    requires Shape(bs, ourId) && Covered(bs, target)
    requires i < |ClosestNodes(bs, target, count)| && j < |ClosestNodes(bs, target, count)|
    requires Covers(bs[BucketIndex(bs, target)], ClosestNodes(bs, target, count)[i].id)
    requires !Covers(bs[BucketIndex(bs, target)], ClosestNodes(bs, target, count)[j].id)
    ensures i < j
  {
    hide Shape, Distance, LexLess, ClosestNodes, SharesPrefix, IsLiveContact;
    var r := ClosestNodes(bs, target, count);
    var b := bs[BucketIndex(bs, target)];
    PrefixLocality(b.prefix, b.prefixLen, target, r[i].id, r[j].id);
    ResultIncreases(bs, ourId, target, count);
    CloserEarlier(r, target, i, j);
  }

  lemma ResultIncreases(bs: seq<Bucket>, ourId: NodeId, target: NodeId, count: nat)
    requires Shape(bs, ourId)
    ensures Increasing(ClosestNodes(bs, target, count), target)
  {
    ClosestNodesExact(bs, ourId, target, count);
  }

  lemma CloserEarlier(r: seq<Contact>, target: NodeId, i: nat, j: nat)
    requires Increasing(r, target) && i < |r| && j < |r| && Nearer(r[i], r[j], target)
    ensures i < j
  {
    LexTotal(Distance(r[i].id, target), Distance(r[j].id, target));
  }

  /** No contact outside the target's bucket is returned while one inside it is left out. */
  lemma OwnBucketExhausted(bs: seq<Bucket>, ourId: NodeId, target: NodeId, count: nat, inside: Contact, outside: Contact)
    requires Shape(bs, ourId) && Covered(bs, target) && Covered(bs, inside.id)
    requires IsLiveContact(bs, inside) && Covers(bs[BucketIndex(bs, target)], inside.id)
    requires outside in ClosestNodes(bs, target, count) && !Covers(bs[BucketIndex(bs, target)], outside.id)
    ensures inside in ClosestNodes(bs, target, count)
  {
    var b := bs[BucketIndex(bs, target)];
    PrefixLocality(b.prefix, b.prefixLen, target, inside.id, outside.id);
    LexTotal(Distance(inside.id, target), Distance(outside.id, target));
    if inside !in ClosestNodes(bs, target, count) {
      LeftOutIsFarther(bs, ourId, target, count, outside, inside);
    }
  }

  lemma LeftOutIsFarther(bs: seq<Bucket>, ourId: NodeId, target: NodeId, count: nat, c: Contact, d: Contact)
    requires Shape(bs, ourId) && Covered(bs, d.id) && IsLiveContact(bs, d)
    requires c in ClosestNodes(bs, target, count) && d !in ClosestNodes(bs, target, count)
    ensures Nearer(c, d, target)
  {
    ClosestNodesExact(bs, ourId, target, count);
  }

  /** The order is the numeric XOR metric. */
  lemma NearerIsNumeric(a: Contact, b: Contact, target: NodeId)
    ensures Nearer(a, b, target)
            <==> Value(Digits(Distance(a.id, target))) < Value(Digits(Distance(b.id, target)))
  {
    LexIsNumeric(Distance(a.id, target), Distance(b.id, target));
  }

  // ------------------------------------------------------------ what a lookup starts with

  /** The nodes of discover_peers: the closest live contacts, filled up with the closest candidates. */
  ghost function LookupNodes(bs: seq<Bucket>, target: NodeId, fanout: nat): seq<Contact>
  {
    var live := ClosestNodes(bs, target, fanout);
    if |live| < fanout then live + ClosestCandidates(bs, target, fanout - |live|) else live
  }

  /** They are as many as asked for or as the table holds, no id twice, live ones first, and a candidate is
      among them only if every live contact is. */
  lemma LookupNodesExact(bs: seq<Bucket>, ourId: NodeId, target: NodeId, fanout: nat)
    requires Shape(bs, ourId)
    ensures var r := LookupNodes(bs, target, fanout);
            && |r| == Min(fanout, LiveTotal(bs) + CandidateTotal(bs))
            && DistinctIds(r)
            && (forall c | c in r :: Covered(bs, c.id) && (IsLiveContact(bs, c) || IsCandidate(bs, c)))
            && (forall c, d: Contact | c in r :: Covered(bs, c.id) && Covered(bs, d.id)
                  && (IsCandidate(bs, c) && IsLiveContact(bs, d) ==> d in r))
  {
    hide Shape, Covers, BucketIndex, IsCandidate, IsLiveContact, Nearest, CandidateTotal, LiveTotal, Nearer,
         ClosestNodes, ClosestCandidates;
    var live := ClosestNodes(bs, target, fanout);
    ClosestNodesExact(bs, ourId, target, fanout);
    NearerDistinct(live, target);
    forall c: Contact
      ensures Covered(bs, c.id) && (IsCandidate(bs, c) ==> !IsLiveContact(bs, c))
    {
      CandidateNotLive(bs, ourId, c);
    }
    if |live| < fanout {
      AllLive(bs, ourId, target, fanout);
      var rest := ClosestCandidates(bs, target, fanout - |live|);
      ClosestCandidatesExact(bs, ourId, target, fanout - |live|);
      NearerDistinct(rest, target);
      forall c, d | c in live && d in rest
        ensures c.id != d.id
      {
        LiveNotQueued(bs, ourId, c, d);
      }
      DistinctConcat(live, rest);
    }
  }

  /** Nothing nearer is left out: every live contact that is not among them is farther from the target than every one
      that is, and so is every candidate. */
  lemma LookupNodesNearest(bs: seq<Bucket>, ourId: NodeId, target: NodeId, fanout: nat, c: Contact, d: Contact)
    requires Shape(bs, ourId) && Covered(bs, c.id) && Covered(bs, d.id)
    requires c in LookupNodes(bs, target, fanout) && d !in LookupNodes(bs, target, fanout)
    requires (IsLiveContact(bs, c) && IsLiveContact(bs, d)) || (IsCandidate(bs, c) && IsCandidate(bs, d))
    ensures Value(Digits(Distance(c.id, target))) < Value(Digits(Distance(d.id, target)))
  {
    hide Shape, Covers, BucketIndex, IsCandidate, IsLiveContact, CandidateTotal, LiveTotal, Nearer, ClosestNodes, ClosestCandidates,
         Value, Digits, Distance;
    var live := ClosestNodes(bs, target, fanout);
    NearerIsNumeric(c, d, target);
    ClosestNodesExact(bs, ourId, target, fanout);
    CandidateNotLive(bs, ourId, c);
    if c !in live {
      ClosestCandidatesExact(bs, ourId, target, fanout - |live|);
    }
  }

  ghost predicate AllLiveContacts(bs: seq<Bucket>, cs: seq<Contact>)
  {
    forall i | 0 <= i < |cs| :: Covered(bs, cs[i].id) && IsLiveContact(bs, cs[i])
  }

  ghost predicate AllCandidates(bs: seq<Bucket>, cs: seq<Contact>)
  {
    forall i | 0 <= i < |cs| :: Covered(bs, cs[i].id) && IsCandidate(bs, cs[i])
  }

  /** First come live contacts, then candidates, each part in increasing distance from the target. */
  lemma LookupNodesOrder(bs: seq<Bucket>, ourId: NodeId, target: NodeId, fanout: nat)
    requires Shape(bs, ourId)
    ensures exists live, queued :: LookupNodes(bs, target, fanout) == live + queued
              && AllLiveContacts(bs, live) && Increasing(live, target)
              && AllCandidates(bs, queued) && Increasing(queued, target)
  {
    hide Shape, AllLiveContacts, AllCandidates, Increasing, ClosestNodes, ClosestCandidates;
    var live, r := ClosestNodes(bs, target, fanout), LookupNodes(bs, target, fanout);
    LivePart(bs, ourId, target, fanout);
    if |live| < fanout {
      QueuedPart(bs, ourId, target, fanout - |live|);
    } else {
      QueuedPart(bs, ourId, target, 0);
      assert r == live + [];
    }
  }

  lemma LivePart(bs: seq<Bucket>, ourId: NodeId, target: NodeId, count: nat)
    requires Shape(bs, ourId)
    ensures AllLiveContacts(bs, ClosestNodes(bs, target, count)) && Increasing(ClosestNodes(bs, target, count), target)
  {
    hide Shape, Covered, IsLiveContact, Increasing, ClosestNodes;
    ClosestNodesExact(bs, ourId, target, count);
  }

  lemma QueuedPart(bs: seq<Bucket>, ourId: NodeId, target: NodeId, count: nat)
    requires Shape(bs, ourId)
    ensures AllCandidates(bs, ClosestCandidates(bs, target, count)) && Increasing(ClosestCandidates(bs, target, count), target)
    ensures count == 0 ==> ClosestCandidates(bs, target, count) == []
  {
    hide Shape, Covered, IsCandidate, Increasing, ClosestCandidates, CandidateTotal;
    ClosestCandidatesExact(bs, ourId, target, count);
  }

  lemma NearerDistinct(cs: seq<Contact>, target: NodeId)
    requires Increasing(cs, target)
    ensures DistinctIds(cs)
  {
    forall i, j | 0 <= i < j < |cs|
      ensures cs[i].id != cs[j].id
    {
      assert Nearer(cs[i], cs[j], target);
      LexTotal(Distance(cs[i].id, target), Distance(cs[j].id, target));
    }
  }

  lemma CandidateNotLive(bs: seq<Bucket>, ourId: NodeId, c: Contact)
    requires Shape(bs, ourId)
    ensures Covered(bs, c.id) && (IsCandidate(bs, c) ==> !IsLiveContact(bs, c))
  {
    NeverBoth(bs, ourId, c);
  }

  lemma LiveNotQueued(bs: seq<Bucket>, ourId: NodeId, c: Contact, d: Contact)
    requires Shape(bs, ourId) && Covered(bs, c.id) && Covered(bs, d.id) && IsLiveContact(bs, c) && IsCandidate(bs, d)
    ensures c.id != d.id
  {
    NeverBoth(bs, ourId, d);
  }

  /** Fewer live contacts than asked for are all of them. */
  lemma AllLive(bs: seq<Bucket>, ourId: NodeId, target: NodeId, count: nat)
    requires Shape(bs, ourId) && |ClosestNodes(bs, target, count)| < count
    ensures |ClosestNodes(bs, target, count)| == LiveTotal(bs)
    ensures forall d: Contact :: Covered(bs, d.id) && (IsLiveContact(bs, d) ==> d in ClosestNodes(bs, target, count))
  {
    hide IsLiveContact, Covers, BucketIndex, LiveTotal, InLive;
    LiveContactsExact(bs, ourId);
    SortSorts(LiveContacts(bs), target);
  }
}
