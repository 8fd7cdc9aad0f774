/** Sequences without duplicates, and their prefixes. */
module Seqs {

  ghost predicate NoDup<T>(s: seq<T>)
  {
    forall i, j | 0 <= i < j < |s| :: s[i] != s[j]
  }

  function SetOf<T>(s: seq<T>): set<T>
  {
    set x | x in s
  }

  function Take<T>(s: seq<T>, n: nat): seq<T>
  {
    if n < |s| then s[..n] else s
  }

  function Drop<T>(s: seq<T>, n: nat): seq<T>
  {
    if n < |s| then s[n..] else []
  }

  lemma TakeDropNoDup<T>(s: seq<T>, n: nat)
    requires NoDup(s)
    ensures NoDup(Take(s, n)) && NoDup(Drop(s, n))
    ensures SetOf(Drop(s, n)) == SetOf(s) - SetOf(Take(s, n))
    ensures |Take(s, n)| + |Drop(s, n)| == |s|
  {
    assert s == Take(s, n) + Drop(s, n);
    forall x | x in Drop(s, n)
      ensures x !in Take(s, n)
    {
      var k :| 0 <= k < |Drop(s, n)| && Drop(s, n)[k] == x;
      assert s[n + k] == x;
    }
  }

  lemma {:induction false} NoDupSize<T>(s: seq<T>)
    requires NoDup(s)
    ensures |SetOf(s)| == |s|
  {
    if |s| > 0 {
      var init := s[..|s| - 1];
      NoDupSize(init);
      assert SetOf(s) == SetOf(init) + {s[|s| - 1]};
      assert s[|s| - 1] !in SetOf(init);
    }
  }

  lemma NoDupConcat<T>(a: seq<T>, b: seq<T>)
    requires NoDup(a) && NoDup(b) && SetOf(a) !! SetOf(b)
    ensures NoDup(a + b) && SetOf(a + b) == SetOf(a) + SetOf(b)
  {
    var s := a + b;
    forall i, j | 0 <= i < j < |s|
      ensures s[i] != s[j]
    {
      if i < |a| <= j {
        assert s[i] in SetOf(a) && s[j] in SetOf(b);
      }
    }
  }

  lemma SubsetSize<T>(a: set<T>, b: set<T>)
    requires a <= b
    ensures |a| <= |b|
    ensures |a| == |b| ==> a == b
  {
    assert b == a + (b - a);
    assert |b| == |a| + |b - a|;
  }

  /** The two halves of a sequence without duplicates. */
  lemma NoDupSplit<T>(a: seq<T>, b: seq<T>)
    requires NoDup(a + b)
    ensures NoDup(a) && NoDup(b) && SetOf(a) !! SetOf(b) && SetOf(a + b) == SetOf(a) + SetOf(b)
  {
    var s := a + b;
    assert forall i | 0 <= i < |a| :: s[i] == a[i];
    assert forall i | 0 <= i < |b| :: s[|a| + i] == b[i];
    forall x | x in a
      ensures x !in b
    {
      var i :| 0 <= i < |a| && a[i] == x;
      forall j | 0 <= j < |b|
        ensures b[j] != x
      {
        assert s[i] != s[|a| + j];
      }
    }
  }
}
