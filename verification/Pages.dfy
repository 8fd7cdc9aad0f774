/** Sorted, limited queries over hashes, and the union of two of them. */
module Pages {
  import opened NodeIds
  import opened Net
  import opened Seqs

  /** page holds the least n members of s, ascending. */
  ghost predicate IsFirst(page: seq<NodeId>, s: set<NodeId>, n: nat)
  {
    && Ascends(page)
    && SetOf(page) <= s
    && |page| == Min(n, |s|)
    && (forall x, y | x in page && y in s && y !in page :: LexLess(x, y))
  }

  ghost predicate Ascends(page: seq<NodeId>)
  {
    forall i, j | 0 <= i < j < |page| :: LexLess(page[i], page[j])
  }

  predicate IsLeast(m: NodeId, s: set<NodeId>)
  {
    m in s && forall x | x in s :: x == m || LexLess(m, x)
  }

  lemma {:induction false} LeastExists(s: set<NodeId>) returns (m: NodeId)
    requires s != {}
    ensures IsLeast(m, s)
    decreases |s|
  {
    var k :| k in s;
    var rest := s - {k};
    assert forall x | x in s :: x == k || x in rest;
    m := k;
    if rest != {} {
      var r := LeastExists(rest);
      LexTotal(k, r);
      if LexLess(r, k) {
        m := r;
      } else {
        forall x | x in s && x != k && x != r
          ensures LexLess(k, x)
        {
          LexTransitive(k, r, x);
        }
      }
    }
  }

  lemma OneLeast(s: set<NodeId>)
    requires s != {}
    ensures exists m :: IsLeast(m, s)
    ensures forall m: NodeId, k: NodeId | IsLeast(m, s) && IsLeast(k, s) :: m == k
  {
    var w := LeastExists(s);
    assert IsLeast(w, s);
    forall m: NodeId, k: NodeId | IsLeast(m, s) && IsLeast(k, s)
      ensures m == k
    {
      LexTotal(m, k);
    }
  }

  function Least(s: set<NodeId>): (m: NodeId)
    requires s != {}
    ensures IsLeast(m, s)
  {
    OneLeast(s);
    var m :| m in s && IsLeast(m, s);
    m
  }

  /** SELECT ... ORDER BY info_hash LIMIT n */
  function First(s: set<NodeId>, n: nat): seq<NodeId>
  {
    if n == 0 || s == {} then [] else [Least(s)] + First(s - {Least(s)}, n - 1)
  }

  lemma {:induction false} FirstIsFirst(s: set<NodeId>, n: nat)
    ensures IsFirst(First(s, n), s, n)
    decreases n
  {
    if n > 0 && s != {} {
      var m := Least(s);
      FirstIsFirst(s - {m}, n - 1);
      LeastThenFirst(m, First(s - {m}, n - 1), s, n);
    }
  }

  lemma LeastThenFirst(m: NodeId, rest: seq<NodeId>, s: set<NodeId>, n: nat)
    requires n > 0 && IsLeast(m, s) && IsFirst(rest, s - {m}, n - 1)
    ensures IsFirst([m] + rest, s, n)
  {
    hide LexLess;
    var page := [m] + rest;
    assert |s - {m}| == |s| - 1;
    forall x | x in rest
      ensures x in s && x != m
    {
      assert x in SetOf(rest);
      assert x in s - {m};
    }
    assert Ascends(page) by {
      forall i, j | 0 <= i < j < |page|
        ensures LexLess(page[i], page[j])
      {
        assert page[j] == rest[j - 1] && rest[j - 1] in rest;
      }
    }
    forall x, y | x in page && y in s && y !in page
      ensures LexLess(x, y)
    {
      assert y != m && y !in rest;
    }
  }

  lemma {:induction false} AscendsNoDup(page: seq<NodeId>)
    requires Ascends(page)
    ensures NoDup(page)
  {
    forall i, j | 0 <= i < j < |page|
      ensures page[i] != page[j]
    {
      LexTotal(page[i], page[j]);
    }
  }

  /** If all of x, n of them, precede u, then so do the least n of any set that holds x. */
  lemma CrowdedOut(page: seq<NodeId>, v: set<NodeId>, x: seq<NodeId>, n: nat, p: NodeId, u: NodeId)
    requires IsFirst(page, v, n) && SetOf(x) <= v && Ascends(x) && |x| == n && p in page
    requires forall y | y in x :: LexLess(y, u)
    ensures LexLess(p, u)
  {
    AscendsNoDup(x);
    NoDupSize(x);
    AscendsNoDup(page);
    NoDupSize(page);
    if SetOf(x) <= SetOf(page) {
      SubsetSize(SetOf(x), SetOf(page));
      assert p in SetOf(page);
      assert p in SetOf(x);
    } else {
      var y :| y in SetOf(x) && y !in SetOf(page);
      assert LexLess(p, y);
      LexTransitive(p, y, u);
    }
  }

  /** The first n of two limited queries together are the first n of both whole sets. */
  lemma UnionPage(a: set<NodeId>, b: set<NodeId>, n: nat)
    ensures IsFirst(First(SetOf(First(a, n)) + SetOf(First(b, n)), n), a + b, n)
  {
    hide IsLeast, First;
    var x, y := First(a, n), First(b, n);
    var v := SetOf(x) + SetOf(y);
    var page := First(v, n);
    FirstIsFirst(a, n);
    FirstIsFirst(b, n);
    FirstIsFirst(v, n);
    UnionSize(x, y, a, b, n);
    forall p, u | p in page && u in a + b && u !in page
      ensures LexLess(p, u)
    {
      if u !in v {
        if u in a {
          CrowdedOutBy(page, v, x, a, n, p, u);
        } else {
          CrowdedOutBy(page, v, y, b, n, p, u);
        }
      }
    }
  }

  lemma CrowdedOutBy(page: seq<NodeId>, v: set<NodeId>, x: seq<NodeId>, a: set<NodeId>, n: nat, p: NodeId, u: NodeId)
    requires IsFirst(page, v, n) && IsFirst(x, a, n) && SetOf(x) <= v && p in page && u in a && u !in v
    ensures LexLess(p, u)
  {
    FullUnlessAll(x, a, n);
    assert u !in SetOf(x);
    CrowdedOut(page, v, x, n, p, u);
  }

  lemma FullUnlessAll(x: seq<NodeId>, a: set<NodeId>, n: nat)
    requires IsFirst(x, a, n)
    ensures |x| == n || SetOf(x) == a
  {
    AscendsNoDup(x);
    NoDupSize(x);
    SubsetSize(SetOf(x), a);
  }

  lemma UnionSize(x: seq<NodeId>, y: seq<NodeId>, a: set<NodeId>, b: set<NodeId>, n: nat)
    requires IsFirst(x, a, n) && IsFirst(y, b, n)
    ensures Min(n, |SetOf(x) + SetOf(y)|) == Min(n, |a + b|)
    ensures SetOf(x) + SetOf(y) <= a + b
  {
    FullUnlessAll(x, a, n);
    FullUnlessAll(y, b, n);
    AscendsNoDup(x);
    NoDupSize(x);
    AscendsNoDup(y);
    NoDupSize(y);
    SubsetSize(SetOf(x) + SetOf(y), a + b);
    SubsetSize(SetOf(x), SetOf(x) + SetOf(y));
    SubsetSize(SetOf(y), SetOf(x) + SetOf(y));
  }
}
