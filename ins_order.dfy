/** The records handled by `write_ins_file` and the order numpy sorts them
    in: by row, then column, then name (code-point lexicographic). */
module InsOrder {

  /** One `(x, y, obsname)` tuple: row index, column index and name. */
  datatype Triple = Triple(x: int, y: int, name: string)

  /** Code-point lexicographic order on strings; a proper prefix comes first. */
  predicate StrLe(a: string, b: string)
    decreases |a|
  {
    a == [] || (b != [] && (a[0] < b[0] || (a[0] == b[0] && StrLe(a[1..], b[1..]))))
  }

  lemma {:induction false} StrLeTotal(a: string, b: string)
    ensures StrLe(a, b) || StrLe(b, a)
    decreases |a|
  {
    if a != [] && b != [] && a[0] == b[0] {
      StrLeTotal(a[1..], b[1..]);
    }
  }

  lemma {:induction false} StrLeReflexive(a: string)
    ensures StrLe(a, a)
    decreases |a|
  {
    if a != [] {
      StrLeReflexive(a[1..]);
    }
  }

  lemma {:induction false} StrLeAntisymmetric(a: string, b: string)
    requires StrLe(a, b) && StrLe(b, a)
    ensures a == b
    decreases |a|
  {
    if a != [] && b != [] {
      StrLeAntisymmetric(a[1..], b[1..]);
      assert a == [a[0]] + a[1..] && b == [b[0]] + b[1..];
    }
  }

  lemma {:induction false} StrLeTransitive(a: string, b: string, c: string)
    requires StrLe(a, b) && StrLe(b, c)
    ensures StrLe(a, c)
    decreases |a|
  {
    if a != [] && b != [] && c != [] && a[0] == b[0] && b[0] == c[0] {
      StrLeTransitive(a[1..], b[1..], c[1..]);
    }
  }

  /** The order given by `sort(order=['x', 'y', 'obsname'])`. */
  predicate TripleLe(s: Triple, t: Triple)
  {
    s.x < t.x || (s.x == t.x && (s.y < t.y || (s.y == t.y && StrLe(s.name, t.name))))
  }

  lemma TripleLeTotal(s: Triple, t: Triple)
    ensures TripleLe(s, t) || TripleLe(t, s)
  {
    StrLeTotal(s.name, t.name);
  }

  lemma TripleLeAntisymmetric(s: Triple, t: Triple)
    requires TripleLe(s, t) && TripleLe(t, s)
    ensures s == t
  {
    StrLeAntisymmetric(s.name, t.name);
  }

  lemma TripleLeTransitive(s: Triple, t: Triple, u: Triple)
    requires TripleLe(s, t) && TripleLe(t, u)
    ensures TripleLe(s, u)
  {
    if s.x == t.x == u.x && s.y == t.y == u.y {
      StrLeTransitive(s.name, t.name, u.name);
    }
  }

  predicate Sorted(s: seq<Triple>)
  {
    forall i, j :: 0 <= i < j < |s| ==> TripleLe(s[i], s[j])
  }

  /** Inserts `t` in front of the first element it precedes. */
  function Insert(t: Triple, s: seq<Triple>): (r: seq<Triple>)
    requires Sorted(s)
    ensures Sorted(r)
    ensures multiset(r) == multiset(s) + multiset{t}
    ensures |r| == |s| + 1
  {
    if s == [] then [t]
    else if TripleLe(t, s[0]) then
      assert forall j :: 0 < j < |s| ==> TripleLe(s[0], s[j]);
      forall j | 0 < j < |s| ensures TripleLe(t, s[j]) { TripleLeTransitive(t, s[0], s[j]); }
      [t] + s
    else
      TripleLeTotal(t, s[0]);
      var rest := Insert(t, s[1..]);
      HeadBelowRest(t, s, rest);
      assert s == [s[0]] + s[1..];
      [s[0]] + rest
  }

  /** The head of a sorted `s` stays below everything once `t`, which it
      precedes, joins the tail. */
  lemma HeadBelowRest(t: Triple, s: seq<Triple>, rest: seq<Triple>)
    requires Sorted(s) && s != [] && TripleLe(s[0], t)
    requires multiset(rest) == multiset(s[1..]) + multiset{t}
    ensures forall j :: 0 <= j < |rest| ==> TripleLe(s[0], rest[j])
  {
    forall j | 0 <= j < |rest| ensures TripleLe(s[0], rest[j]) {
      assert rest[j] in multiset(rest);
      if rest[j] != t {
        assert rest[j] in multiset(s[1..]);
        var m :| 0 <= m < |s[1..]| && s[1..][m] == rest[j];
        assert s[m + 1] == rest[j];
      }
    }
  }

  /** The result of numpy's sort on the merged records (see SortedUnique:
      any algorithm gives the same sequence). */
  function Sort(s: seq<Triple>): (r: seq<Triple>)
    ensures Sorted(r)
    ensures multiset(r) == multiset(s)
    ensures |r| == |s|
  {
    if s == [] then []
    else
      assert s == s[..|s| - 1] + [s[|s| - 1]];
      Insert(s[|s| - 1], Sort(s[..|s| - 1]))
  }

  /** A sorted permutation is unique, because TripleLe is a total order. */
  lemma {:induction false} SortedUnique(a: seq<Triple>, b: seq<Triple>)
    requires Sorted(a) && Sorted(b) && multiset(a) == multiset(b)
    ensures a == b
    decreases |a|
  {
    assert |a| == |multiset(a)| == |multiset(b)| == |b|;
    if a != [] {
      SortedHeadsAgree(a, b);
      TailMultiset(a);
      TailMultiset(b);
      SortedUnique(a[1..], b[1..]);
      assert a == [a[0]] + a[1..] && b == [b[0]] + b[1..];
    }
  }

  lemma SortedHeadsAgree(a: seq<Triple>, b: seq<Triple>)
    requires Sorted(a) && Sorted(b) && multiset(a) == multiset(b) && a != []
    ensures b != [] && a[0] == b[0]
  {
    assert a[0] in multiset(b);
    assert b[0] in multiset(a);
    var i :| 0 <= i < |a| && a[i] == b[0];
    var j :| 0 <= j < |b| && b[j] == a[0];
    StrLeReflexive(a[0].name);
    StrLeReflexive(b[0].name);
    assert TripleLe(a[0], a[i]) by { if i > 0 { assert TripleLe(a[0], a[i]); } }
    assert TripleLe(b[0], b[j]) by { if j > 0 { assert TripleLe(b[0], b[j]); } }
    TripleLeAntisymmetric(a[0], b[0]);
  }

  lemma TailMultiset(a: seq<Triple>)
    requires a != []
    ensures multiset(a[1..]) == multiset(a) - multiset{a[0]}
  {
    assert a == [a[0]] + a[1..];
  }
}
