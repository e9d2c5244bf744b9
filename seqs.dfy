/** Facts about sequences shared by the models: distinct elements, the
    set of the elements and its size, strictly increasing integers. */
module Seqs {

  predicate Distinct<T(==)>(s: seq<T>)
  {
    forall i, j :: 0 <= i < j < |s| ==> s[i] != s[j]
  }

  function SeqSet<T>(s: seq<T>): set<T> { set v | v in s }

  /** A sequence has at most as many different elements as positions,
      and exactly as many when no element repeats. */
  lemma {:induction false} SeqSetCard<T>(s: seq<T>)
    ensures |SeqSet(s)| <= |s|
    ensures |SeqSet(s)| == |s| <==> Distinct(s)
  {
    if s != [] {
      var p := s[..|s| - 1];
      var x := s[|s| - 1];
      SeqSetCard(p);
      assert s == p + [x];
      assert SeqSet(s) == SeqSet(p) + {x};
      if x in SeqSet(p) {
        var i :| 0 <= i < |p| && p[i] == x;
        assert s[i] == s[|s| - 1];
      } else {
        forall i, j | 0 <= i < j < |s| && Distinct(p) ensures s[i] != s[j] {
          if j == |s| - 1 {
            assert p[i] in SeqSet(p);
          } else {
            assert p[i] != p[j];
          }
        }
        if Distinct(s) {
          assert forall i, j :: 0 <= i < j < |p| ==> p[i] == s[i] && p[j] == s[j];
        }
      }
    }
  }

  predicate Increasing(r: seq<int>)
  {
    forall i, j :: 0 <= i < j < |r| ==> r[i] < r[j]
  }

  lemma IncreasingCard(r: seq<int>)
    requires Increasing(r)
    ensures |SeqSet(r)| == |r|
  {
    SeqSetCard(r);
  }

  /** Two strictly increasing sequences with the same elements are equal. */
  lemma {:induction false} IncreasingSameSet(a: seq<int>, b: seq<int>)
    requires Increasing(a) && Increasing(b) && SeqSet(a) == SeqSet(b)
    ensures a == b
    decreases |a|
  {
    IncreasingCard(a);
    IncreasingCard(b);
    if a != [] {
      assert a[0] in SeqSet(b) && b[0] in SeqSet(a);
      var i :| 0 <= i < |b| && b[i] == a[0];
      var j :| 0 <= j < |a| && a[j] == b[0];
      assert b[0] <= b[i] && a[0] <= a[j];
      TailSets(a, b);
      TailSets(b, a);
      IncreasingSameSet(a[1..], b[1..]);
      assert a == [a[0]] + a[1..] && b == [b[0]] + b[1..];
    }
  }

  lemma TailSets(a: seq<int>, b: seq<int>)
    requires Increasing(a) && Increasing(b) && SeqSet(a) == SeqSet(b)
    requires a != [] && b != [] && a[0] == b[0]
    ensures SeqSet(a[1..]) <= SeqSet(b[1..])
  {
    forall v | v in SeqSet(a[1..]) ensures v in SeqSet(b[1..]) {
      var k :| 1 <= k < |a| && a[k] == v;
      assert v in SeqSet(b);
      var m :| 0 <= m < |b| && b[m] == v;
      assert a[0] < a[k];
      assert b[m] == b[1..][m - 1];
    }
  }

  /** A subset is no larger, and one of the same size is the whole set. */
  lemma SubsetCard<T>(a: set<T>, b: set<T>)
    requires a <= b
    ensures |a| <= |b| && (|a| == |b| ==> a == b)
  {
    assert b == a + (b - a);
    assert a * (b - a) == {};
    if |a| == |b| {
      assert |b - a| == 0;
    }
  }
}
