/** The names the instruction file captures: on each line the first name
    in sorted order per column, and, when no two records share a cell,
    every record's name once in sorted order. */
module InsNames {
  import opened InsOrder
  import opened InsGroup
  import opened InsFile

  // ---------------------------------------------------------------------
  // What a group's records look like on sorted input.

  predicate UniqueCoords(s: seq<Triple>)
  {
    forall i, j :: 0 <= i < j < |s| ==> (s[i].x, s[i].y) != (s[j].x, s[j].y)
  }

  /** Every column index is one of the `ncols` columns the writer visits. */
  predicate ColsInRange(s: seq<Triple>, ncols: int)
  {
    forall i :: 0 <= i < |s| ==> 0 <= s[i].y < ncols
  }

  predicate Ascending(cols: seq<int>)
  {
    forall a, b :: 0 <= a < b < |cols| ==> cols[a] < cols[b]
  }

  /** A group's records are a run `s[lo..lo + n]` of the input. */
  lemma GroupIsRun(s: seq<Triple>, i: nat) returns (lo: nat)
    requires i < |Grouped(s)|
    ensures lo + |Grouped(s)[i].cols| <= |s|
    ensures s[lo..lo + |Grouped(s)[i].cols|] == Members(Grouped(s)[i])
  {
    var gs := Grouped(s);
    MembersInFlatten(gs, i);
    FlattenGrouped(s);
    lo := |Flatten(gs[..i])|;
  }

  lemma RunSorted(s: seq<Triple>, lo: nat, hi: nat)
    requires Sorted(s) && lo <= hi <= |s|
    ensures Sorted(s[lo..hi])
  {
    var r := s[lo..hi];
    forall a, b | 0 <= a < b < |r| ensures TripleLe(r[a], r[b]) {
      assert r[a] == s[lo + a] && r[b] == s[lo + b];
    }
  }

  lemma RunUnique(s: seq<Triple>, lo: nat, hi: nat)
    requires UniqueCoords(s) && lo <= hi <= |s|
    ensures UniqueCoords(s[lo..hi])
  {
    var r := s[lo..hi];
    forall a, b | 0 <= a < b < |r| ensures (r[a].x, r[a].y) != (r[b].x, r[b].y) {
      assert r[a] == s[lo + a] && r[b] == s[lo + b];
    }
  }

  /** On sorted input a group's records are a sorted run of the input. */
  lemma GroupSorted(s: seq<Triple>, i: nat)
    requires Sorted(s) && i < |Grouped(s)|
    ensures Sorted(Members(Grouped(s)[i]))
  {
    var lo := GroupIsRun(s, i);
    RunSorted(s, lo, lo + |Grouped(s)[i].cols|);
  }

  /** Every record of a group is a record of the input. */
  lemma GroupMembersFrom(s: seq<Triple>, i: nat)
    requires i < |Grouped(s)|
    ensures forall a :: 0 <= a < |Grouped(s)[i].cols| ==> Members(Grouped(s)[i])[a] in s
  {
    var lo := GroupIsRun(s, i);
    var m := Members(Grouped(s)[i]);
    forall a | 0 <= a < |m| ensures m[a] in s {
      assert m[a] == s[lo + a];
    }
  }

  /** Sorted records on one row with distinct cells have ascending columns. */
  lemma RowColsAscend(g: RowGroup)
    requires WellFormed(g) && Sorted(Members(g)) && UniqueCoords(Members(g))
    ensures Ascending(g.cols)
  {
    var m := Members(g);
    forall a, b | 0 <= a < b < |g.cols| ensures g.cols[a] < g.cols[b] {
      assert TripleLe(m[a], m[b]);
    }
  }

  /** With distinct cells the columns of a group strictly ascend. */
  lemma GroupColsAscend(s: seq<Triple>, i: nat)
    requires Sorted(s) && UniqueCoords(s) && i < |Grouped(s)|
    ensures Ascending(Grouped(s)[i].cols)
  {
    var lo := GroupIsRun(s, i);
    RunSorted(s, lo, lo + |Grouped(s)[i].cols|);
    RunUnique(s, lo, lo + |Grouped(s)[i].cols|);
    RowColsAscend(Grouped(s)[i]);
  }

  /** When several records share a cell, the one captured is the first in
      the sorted order, whose name is the least of them. */
  lemma CapturedNameIsLeast(s: seq<Triple>, i: nat, k: int)
    requires Sorted(s) && i < |Grouped(s)| && k in Grouped(s)[i].cols
    ensures var g := Grouped(s)[i];
      FieldAt(g, k) == Capture(g.names[IndexOf(g.cols, k)]) &&
      forall j :: 0 <= j < |g.cols| && g.cols[j] == k ==> StrLe(g.names[IndexOf(g.cols, k)], g.names[j])
  {
    var g := Grouped(s)[i];
    var first := IndexOf(g.cols, k);
    GroupSorted(s, i);
    var m := Members(g);
    forall j | 0 <= j < |g.cols| && g.cols[j] == k ensures StrLe(g.names[first], g.names[j]) {
      if j == first {
        StrLeReflexive(g.names[j]);
      } else {
        assert first < j;
        assert TripleLe(m[first], m[j]);
      }
    }
  }

  // ---------------------------------------------------------------------
  // The names captured by a line and by the file.

  /** The names of the capture tokens of a line, left to right. */
  function Captured(fs: seq<Field>): seq<string>
  {
    if fs == [] then []
    else
      var f := fs[|fs| - 1];
      Captured(fs[..|fs| - 1]) + (if f.Capture? then [f.name] else [])
  }

  /** The names captured by the first `n` lines. */
  function AllCaptured(doc: seq<InsLine>, n: nat): seq<string>
    requires n <= |doc|
  {
    if n == 0 then [] else AllCaptured(doc, n - 1) + Captured(doc[n - 1].fields)
  }

  function Names(s: seq<Triple>): (r: seq<string>)
    ensures |r| == |s| && forall i :: 0 <= i < |s| ==> r[i] == s[i].name
  {
    seq(|s|, i requires 0 <= i < |s| => s[i].name)
  }

  /** The names of the first `n` groups. */
  function GroupNames(gs: seq<RowGroup>, n: nat): seq<string>
    requires n <= |gs|
  {
    if n == 0 then [] else GroupNames(gs, n - 1) + gs[n - 1].names
  }

  /** The number of leading columns below `m`. */
  function CountBelow(cols: seq<int>, m: int): nat
  {
    if cols == [] || cols[0] >= m then 0 else 1 + CountBelow(cols[1..], m)
  }

  lemma {:induction false} CountBelowSplits(cols: seq<int>, m: int)
    requires Ascending(cols)
    ensures CountBelow(cols, m) <= |cols|
    ensures forall j :: 0 <= j < CountBelow(cols, m) ==> cols[j] < m
    ensures forall j :: CountBelow(cols, m) <= j < |cols| ==> cols[j] >= m
  {
    if cols != [] && cols[0] < m {
      CountBelowSplits(cols[1..], m);
      forall j | 1 <= j < |cols| ensures cols[j] == cols[1..][j - 1] { }
    }
  }

  /** On ascending columns a split point is unique. */
  lemma SplitUnique(cols: seq<int>, m: int, c: nat)
    requires Ascending(cols) && c <= |cols|
    requires forall j :: 0 <= j < c ==> cols[j] < m
    requires forall j :: c <= j < |cols| ==> cols[j] >= m
    ensures CountBelow(cols, m) == c
  {
    CountBelowSplits(cols, m);
    var d := CountBelow(cols, m);
    if c < |cols| { assert cols[c] >= m; }
    if d < |cols| { assert cols[d] >= m; }
  }

  lemma FieldsSnoc(g: RowGroup, m: nat)
    requires WellFormed(g)
    ensures Fields(g, m + 1) == Fields(g, m) + [FieldAt(g, m)]
  {
  }

  /** The first `m` columns of a line capture the names of the group's
      records in those columns, in column order. */
  lemma {:induction false} CapturedPrefix(g: RowGroup, m: nat)
    requires WellFormed(g) && Ascending(g.cols)
    requires forall j :: 0 <= j < |g.cols| ==> g.cols[j] >= 0
    ensures CountBelow(g.cols, m) <= |g.names|
    ensures Captured(Fields(g, m)) == g.names[..CountBelow(g.cols, m)]
  {
    CountBelowSplits(g.cols, m);
    if m == 0 {
      assert Fields(g, 0) == [];
      SplitUnique(g.cols, 0, 0);
    } else {
      CapturedPrefix(g, m - 1);
      CapturedStep(g, m);
    }
  }

  lemma CapturedStep(g: RowGroup, m: nat)
    requires WellFormed(g) && Ascending(g.cols) && m > 0
    requires forall j :: 0 <= j < |g.cols| ==> g.cols[j] >= 0
    requires CountBelow(g.cols, m - 1) <= |g.names|
    requires Captured(Fields(g, m - 1)) == g.names[..CountBelow(g.cols, m - 1)]
    ensures CountBelow(g.cols, m) <= |g.names|
    ensures Captured(Fields(g, m)) == g.names[..CountBelow(g.cols, m)]
  {
    CountBelowSplits(g.cols, m);
    {
      var c := CountBelow(g.cols, m - 1);
      CountBelowSplits(g.cols, m - 1);
      FieldsSnoc(g, m - 1);
      var fs := Fields(g, m);
      assert fs[..m - 1] == Fields(g, m - 1);
      if m - 1 in g.cols {
        var j := IndexOf(g.cols, m - 1);
        assert g.cols[j] == m - 1;
        if c < |g.cols| { assert g.cols[c] >= m - 1; }
        SplitUnique(g.cols, m, c + 1);
        assert g.names[..c] + [g.names[c]] == g.names[..c + 1];
      } else {
        forall j | c <= j < |g.cols| ensures g.cols[j] >= m {
          assert g.cols[j] != m - 1;
        }
        SplitUnique(g.cols, m, c);
      }
    }
  }

  /** A line whose columns all lie in [0, ncols) captures all the group's
      names. */
  lemma LineCapturesGroup(g: RowGroup, ncols: int)
    requires WellFormed(g) && Ascending(g.cols)
    requires forall j :: 0 <= j < |g.cols| ==> 0 <= g.cols[j] < ncols
    ensures Captured(Fields(g, ColumnCount(ncols))) == g.names
  {
    CapturedPrefix(g, ColumnCount(ncols));
    SplitUnique(g.cols, ColumnCount(ncols), |g.cols|);
    assert g.names[..|g.cols|] == g.names;
  }

  lemma {:induction false} CapturesOfLines(doc: seq<InsLine>, gs: seq<RowGroup>, n: nat)
    requires |doc| == |gs| && n <= |gs|
    requires forall i :: 0 <= i < |gs| ==> Captured(doc[i].fields) == gs[i].names
    ensures AllCaptured(doc, n) == GroupNames(gs, n)
  {
    if n > 0 {
      CapturesOfLines(doc, gs, n - 1);
      SnocEq(AllCaptured(doc, n), GroupNames(gs, n), AllCaptured(doc, n - 1), GroupNames(gs, n - 1),
             Captured(doc[n - 1].fields), gs[n - 1].names);
    }
  }

  /** When every group's columns ascend and lie in [0, ncols), the file
      captures the groups' names, group after group. */
  lemma DocCapturesGroups(gs: seq<RowGroup>, ncols: int, nlHeader: int)
    requires AllWellFormed(gs)
    requires forall i :: 0 <= i < |gs| ==> Ascending(gs[i].cols)
    requires forall i, j :: 0 <= i < |gs| && 0 <= j < |gs[i].cols| ==> 0 <= gs[i].cols[j] < ncols
    ensures AllCaptured(InsDoc(gs, ncols, nlHeader), |gs|) == GroupNames(gs, |gs|)
  {
    var doc := InsDoc(gs, ncols, nlHeader);
    forall i | 0 <= i < |gs| ensures Captured(doc[i].fields) == gs[i].names {
      LineCapturesGroup(gs[i], ncols);
    }
    CapturesOfLines(doc, gs, |gs|);
  }

  lemma SnocEq(a: seq<string>, b: seq<string>, x: seq<string>, y: seq<string>, u: seq<string>, v: seq<string>)
    requires a == x + u && b == y + v && x == y && u == v
    ensures a == b
  {
  }

  lemma NamesAppend(a: seq<Triple>, b: seq<Triple>)
    ensures Names(a + b) == Names(a) + Names(b)
  {
  }

  lemma NamesMembers(g: RowGroup)
    requires WellFormed(g)
    ensures Names(Members(g)) == g.names
  {
  }

  lemma {:induction false} NamesFlatten(gs: seq<RowGroup>, n: nat)
    requires AllWellFormed(gs) && n <= |gs|
    ensures Names(Flatten(gs[..n])) == GroupNames(gs, n)
  {
    if n > 0 {
      NamesFlatten(gs, n - 1);
      assert gs[..n] == gs[..n - 1] + [gs[n - 1]];
      assert AllWellFormed(gs[..n - 1]);
      FlattenSnoc(gs[..n - 1], gs[n - 1]);
      NamesAppend(Flatten(gs[..n - 1]), Members(gs[n - 1]));
      NamesMembers(gs[n - 1]);
    }
  }

  // ---------------------------------------------------------------------
  // Distinct cells survive truncation and sorting.

  lemma CountTwo(s: seq<Triple>, i: nat, j: nat)
    requires i < j < |s| && s[i] == s[j]
    ensures multiset(s)[s[i]] >= 2
  {
    assert s == s[..j] + [s[j]] + s[j + 1..];
    assert s[i] in s[..j];
  }

  lemma {:induction false} TwoPositions(s: seq<Triple>, x: Triple) returns (p: nat, q: nat)
    requires multiset(s)[x] >= 2
    ensures p < q < |s| && s[p] == x && s[q] == x
  {
    var init := s[..|s| - 1];
    assert s == init + [s[|s| - 1]];
    if s[|s| - 1] == x {
      assert x in multiset(init);
      p :| 0 <= p < |init| && init[p] == x;
      q := |s| - 1;
    } else {
      p, q := TwoPositions(init, x);
    }
  }

  /** Two positions of a permutation come from two positions of the original. */
  lemma DistinctPositions(a: seq<Triple>, b: seq<Triple>, i: nat, j: nat) returns (p: nat, q: nat)
    requires multiset(a) == multiset(b) && i < j < |b|
    ensures p < |a| && q < |a| && p != q && a[p] == b[i] && a[q] == b[j]
  {
    assert b[i] in multiset(a) && b[j] in multiset(a);
    if b[i] != b[j] {
      p :| 0 <= p < |a| && a[p] == b[i];
      q :| 0 <= q < |a| && a[q] == b[j];
    } else {
      CountTwo(b, i, j);
      p, q := TwoPositions(a, b[i]);
    }
  }

  lemma PermutedUnique(a: seq<Triple>, b: seq<Triple>)
    requires multiset(a) == multiset(b) && UniqueCoords(a)
    ensures UniqueCoords(b)
  {
    forall i, j | 0 <= i < j < |b| ensures (b[i].x, b[i].y) != (b[j].x, b[j].y) {
      var p, q := DistinctPositions(a, b, i, j);
      if p < q {
        assert (a[p].x, a[p].y) != (a[q].x, a[q].y);
      } else {
        assert (a[q].x, a[q].y) != (a[p].x, a[p].y);
      }
    }
  }

  lemma PermutedInRange(a: seq<Triple>, b: seq<Triple>, ncols: int)
    requires multiset(a) == multiset(b) && ColsInRange(a, ncols)
    ensures ColsInRange(b, ncols)
  {
    forall i | 0 <= i < |b| ensures 0 <= b[i].y < ncols {
      assert b[i] in multiset(a);
      var p :| 0 <= p < |a| && a[p] == b[i];
    }
  }

  lemma CoerceKeepsCells(obsInds: seq<Triple>, predInds: seq<Triple>, fieldWd: nat, ncols: int)
    ensures var merged := Coerce(obsInds, fieldWd) + Coerce(predInds, fieldWd);
      (UniqueCoords(obsInds + predInds) ==> UniqueCoords(merged)) &&
      (ColsInRange(obsInds + predInds, ncols) ==> ColsInRange(merged, ncols))
  {
    var merged := Coerce(obsInds, fieldWd) + Coerce(predInds, fieldWd);
    var o := obsInds + predInds;
    assert |merged| == |o|;
    assert forall i :: 0 <= i < |o| ==> merged[i].x == o[i].x && merged[i].y == o[i].y;
  }

  /** The groups of the sorted merge meet what DocCapturesGroups needs. */
  lemma GroupsReady(all: seq<Triple>, ncols: int)
    requires Sorted(all) && UniqueCoords(all) && ColsInRange(all, ncols)
    ensures forall i :: 0 <= i < |Grouped(all)| ==> Ascending(Grouped(all)[i].cols)
    ensures forall i, j :: 0 <= i < |Grouped(all)| && 0 <= j < |Grouped(all)[i].cols| ==>
      0 <= Grouped(all)[i].cols[j] < ncols
  {
    var gs := Grouped(all);
    forall i | 0 <= i < |gs| ensures Ascending(gs[i].cols) {
      GroupColsAscend(all, i);
    }
    forall i, j | 0 <= i < |gs| && 0 <= j < |gs[i].cols| ensures 0 <= gs[i].cols[j] < ncols {
      GroupMembersFrom(all, i);
      assert Members(gs[i])[j] in all;
      assert Members(gs[i])[j].y == gs[i].cols[j];
    }
  }

  /** When no two records share a cell and every column lies in
      [0, ncols), the file captures every record's (truncated) name
      exactly once, in the order of the sorted merge. */
  lemma CapturesAreNames(obsInds: seq<Triple>, predInds: seq<Triple>, ncols: int, nlHeader: int,
                         fieldWd: nat)
    requires UniqueCoords(obsInds + predInds) && ColsInRange(obsInds + predInds, ncols)
    ensures var all := Sort(Coerce(obsInds, fieldWd) + Coerce(predInds, fieldWd));
      AllCaptured(InsDoc(Grouped(all), ncols, nlHeader), |Grouped(all)|) == Names(all)
  {
    var merged := Coerce(obsInds, fieldWd) + Coerce(predInds, fieldWd);
    var all := Sort(merged);
    var gs := Grouped(all);
    CoerceKeepsCells(obsInds, predInds, fieldWd, ncols);
    PermutedUnique(merged, all);
    PermutedInRange(merged, all, ncols);
    GroupsReady(all, ncols);
    DocCapturesGroups(gs, ncols, nlHeader);
    NamesFlatten(gs, |gs|);
    assert gs[..|gs|] == gs;
    FlattenGrouped(all);
  }
}
