/** The instruction-file inputs of tests/test_0_input.py, worked out. */
module InsExamples {
  import opened InsOrder
  import opened InsGroup
  import opened InsFile

  /** The one-variable observations and predictions of test 0.1. */
  function TestObs(): seq<Triple> { [Triple(0, 1, "temp0"), Triple(1, 1, "temp1"), Triple(3, 1, "temp3")] }
  function TestPred(): seq<Triple> { [Triple(5, 1, "temp5"), Triple(6, 1, "temp6")] }

  lemma CoerceShortNames(inds: seq<Triple>, fieldWd: nat)
    requires forall i :: 0 <= i < |inds| ==> |inds[i].name| <= fieldWd
    ensures Coerce(inds, fieldWd) == inds
  {
  }

  lemma TestMergedSorted()
    ensures Sorted(TestObs() + TestPred())
  {
    var s := TestObs() + TestPred();
    assert forall i :: 0 <= i < |s| ==> s[i].x == [0, 1, 3, 5, 6][i];
  }

  /** With ncols=2 and one header line, the five rows 0, 1, 3, 5, 6 give
      the directives l2 l1 l2 l2 l1, and every line reads the name in
      column 1 after skipping column 0. */
  lemma TestInputAdvances()
    ensures var gs := Grouped(Sort(Coerce(TestObs(), 10) + Coerce(TestPred(), 10)));
      var doc := InsDoc(gs, 2, 1);
      |doc| == 5 &&
      doc[0].advance == 2 && doc[1].advance == 1 && doc[2].advance == 2 &&
      doc[3].advance == 2 && doc[4].advance == 1 &&
      doc[0].fields == [Skip, Capture("temp0")] && doc[1].fields == [Skip, Capture("temp1")] &&
      doc[2].fields == [Skip, Capture("temp3")] && doc[3].fields == [Skip, Capture("temp5")] &&
      doc[4].fields == [Skip, Capture("temp6")]
  {
    var merged := TestObs() + TestPred();
    CoerceShortNames(TestObs(), 10);
    CoerceShortNames(TestPred(), 10);
    TestMergedSorted();
    SortSorted(merged);
    var gs := TestGroups(merged);
    TestDoc(gs);
  }

  /** Sorting input that is already in order changes nothing. */
  lemma SortSorted(s: seq<Triple>)
    requires Sorted(s)
    ensures Sort(s) == s
  {
    SortedUnique(Sort(s), s);
  }

  lemma TestDoc(gs: seq<RowGroup>)
    requires gs == [RowGroup(0, [1], ["temp0"]), RowGroup(1, [1], ["temp1"]), RowGroup(3, [1], ["temp3"]),
                    RowGroup(5, [1], ["temp5"]), RowGroup(6, [1], ["temp6"])]
    ensures var doc := InsDoc(gs, 2, 1);
      |doc| == 5 &&
      doc[0].advance == 2 && doc[1].advance == 1 && doc[2].advance == 2 &&
      doc[3].advance == 2 && doc[4].advance == 1 &&
      doc[0].fields == [Skip, Capture("temp0")] && doc[1].fields == [Skip, Capture("temp1")] &&
      doc[2].fields == [Skip, Capture("temp3")] && doc[3].fields == [Skip, Capture("temp5")] &&
      doc[4].fields == [Skip, Capture("temp6")]
  {
    ColumnOneFields(gs[0]);
    ColumnOneFields(gs[1]);
    ColumnOneFields(gs[2]);
    ColumnOneFields(gs[3]);
    ColumnOneFields(gs[4]);
  }

  /** A line whose only record sits in column 1, with two columns: column 0
      is skipped and column 1 captures the record's name. */
  lemma ColumnOneFields(g: RowGroup)
    requires g.cols == [1] && |g.names| == 1
    ensures Fields(g, 2) == [Skip, Capture(g.names[0])]
  {
    assert FieldAt(g, 0) == Skip;
    assert IndexOf(g.cols, 1) == 0;
  }

  /** The loop of lines 362-370 on the test input: one group per row. */
  lemma TestGroups(merged: seq<Triple>) returns (gs: seq<RowGroup>)
    requires merged == TestObs() + TestPred()
    ensures gs == Grouped(merged)
    ensures gs == [RowGroup(0, [1], ["temp0"]), RowGroup(1, [1], ["temp1"]), RowGroup(3, [1], ["temp3"]),
                   RowGroup(5, [1], ["temp5"]), RowGroup(6, [1], ["temp6"])]
  {
    assert merged[..1][..0] == [];
    assert merged[..2][..1] == merged[..1];
    assert merged[..3][..2] == merged[..2];
    assert merged[..4][..3] == merged[..3];
    assert merged[..5][..4] == merged[..4] && merged[..5] == merged;
    var g1 := [RowGroup(0, [1], ["temp0"])];
    assert Grouped(merged[..1]) == g1;
    var g2 := g1 + [RowGroup(1, [1], ["temp1"])];
    assert Grouped(merged[..2]) == g2;
    var g3 := g2 + [RowGroup(3, [1], ["temp3"])];
    assert Grouped(merged[..3]) == g3;
    var g4 := g3 + [RowGroup(5, [1], ["temp5"])];
    assert Grouped(merged[..4]) == g4;
    gs := g4 + [RowGroup(6, [1], ["temp6"])];
    assert Grouped(merged) == gs;
  }

  /** The third call of test 0.1: the prediction at (0, 2) repeats an
      observation's coordinates, so the call raises ValueError. */
  lemma TestOverlapRaises()
    ensures CoordsOverlap([Triple(0, 1, "tepi0"), Triple(0, 2, "thyp0"), Triple(1, 1, "tepi1"), Triple(3, 2, "thyp3")],
                          [Triple(0, 2, "thyp0p"), Triple(5, 2, "thyp5p"), Triple(6, 1, "tepi6p"), Triple(6, 2, "thyp6p")])
  {
    var obs := [Triple(0, 1, "tepi0"), Triple(0, 2, "thyp0"), Triple(1, 1, "tepi1"), Triple(3, 2, "thyp3")];
    var pred := [Triple(0, 2, "thyp0p"), Triple(5, 2, "thyp5p"), Triple(6, 1, "tepi6p"), Triple(6, 2, "thyp6p")];
    CoordsOverlapIff(obs, pred);
    assert obs[1].x == pred[0].x && obs[1].y == pred[0].y;
  }
}
