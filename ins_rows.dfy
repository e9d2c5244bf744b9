/** The line directives of the instruction file: one per distinct row, in
    ascending order, and their advances add up to the target lines. */
module InsRows {
  import opened InsOrder
  import opened InsGroup
  import opened InsFile
  import opened Seqs

  /** The line the reader stands on after the first `n` directives. */
  function AdvanceSum(doc: seq<InsLine>, n: nat): int
    requires n <= |doc|
  {
    if n == 0 then 0 else AdvanceSum(doc, n - 1) + doc[n - 1].advance
  }

  /** Starting before the header, the advances of lines 0..i land on line
      `row_i + nl_header + 1` of the output file: the line holding row
      `row_i` of the data after `nl_header` header lines. */
  lemma {:induction false} AdvancesReachRows(gs: seq<RowGroup>, ncols: int, nlHeader: int, i: nat)
    requires AllWellFormed(gs) && i < |gs|
    ensures AdvanceSum(InsDoc(gs, ncols, nlHeader), i + 1) == gs[i].row + nlHeader + 1
  {
    if i > 0 {
      AdvancesReachRows(gs, ncols, nlHeader, i - 1);
    }
  }

  lemma SortedRows(s: seq<Triple>)
    requires Sorted(s)
    ensures RowsSorted(s)
  {
    forall i, j | 0 <= i < j < |s| ensures s[i].x <= s[j].x {
      assert TripleLe(s[i], s[j]);
    }
  }

  /** On the sorted merge every directive after the first moves forward. */
  lemma LaterAdvancesPositive(s: seq<Triple>, ncols: int, nlHeader: int)
    requires Sorted(s)
    ensures forall i :: 0 < i < |Grouped(s)| ==> InsDoc(Grouped(s), ncols, nlHeader)[i].advance > 0
  {
    SortedRows(s);
    GroupRowsAreUnique(s);
    var gs := Grouped(s);
    forall i | 0 < i < |gs| ensures InsDoc(gs, ncols, nlHeader)[i].advance > 0 {
      assert Rows(gs)[i - 1] < Rows(gs)[i];
    }
  }

  lemma RowSetPermuted(a: seq<Triple>, b: seq<Triple>)
    requires multiset(a) == multiset(b)
    ensures RowSet(a) == RowSet(b)
  {
    forall t | t in a ensures t in b { assert t in multiset(b); }
    forall t | t in b ensures t in a { assert t in multiset(a); }
  }

  lemma RowSetCoerce(obsInds: seq<Triple>, predInds: seq<Triple>, fieldWd: nat)
    ensures RowSet(Coerce(obsInds, fieldWd) + Coerce(predInds, fieldWd)) == RowSet(obsInds + predInds)
  {
    var c := Coerce(obsInds, fieldWd) + Coerce(predInds, fieldWd);
    var o := obsInds + predInds;
    assert |c| == |o| && forall i :: 0 <= i < |c| ==> c[i].x == o[i].x;
    forall x | x in RowSet(c) ensures x in RowSet(o) {
      var t :| t in c && t.x == x;
      var i :| 0 <= i < |c| && c[i] == t;
      assert o[i] in o;
    }
    forall x | x in RowSet(o) ensures x in RowSet(c) {
      var t :| t in o && t.x == x;
      var i :| 0 <= i < |o| && o[i] == t;
      assert c[i] in c;
    }
  }

  /** The file has exactly one line directive per distinct row index of
      the observations and predictions together, in ascending row order
      (the rows of `np.unique`). */
  lemma OneLinePerRow(obsInds: seq<Triple>, predInds: seq<Triple>, ncols: int, nlHeader: int, fieldWd: nat)
    ensures var gs := Grouped(Sort(Coerce(obsInds, fieldWd) + Coerce(predInds, fieldWd)));
      IsUniqueOf(Rows(gs), RowSet(obsInds + predInds)) &&
      |InsDoc(gs, ncols, nlHeader)| == |RowSet(obsInds + predInds)|
  {
    var merged := Coerce(obsInds, fieldWd) + Coerce(predInds, fieldWd);
    var all := Sort(merged);
    var gs := Grouped(all);
    SortedRows(all);
    GroupRowsAreUnique(all);
    RowSetPermuted(all, merged);
    RowSetCoerce(obsInds, predInds, fieldWd);
    IncreasingCard(Rows(gs));
    assert SeqSet(Rows(gs)) == RowSet(obsInds + predInds);
  }
}
