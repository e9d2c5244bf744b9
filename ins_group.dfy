/** Grouping of the sorted records by row: the lists `j_list`, `v_list`
    and `o_list` that `write_ins_file` builds before writing. */
module InsGroup {
  import opened InsOrder

  /** One output line's worth of records: the row index (an entry of
      `j_list`), and the columns and names found on it (`v_list[i]` and
      `o_list[i]`), in input order. */
  datatype RowGroup = RowGroup(row: int, cols: seq<int>, names: seq<string>)

  predicate WellFormed(g: RowGroup) { |g.cols| == |g.names| }

  /** The records a group stands for, in order. */
  function Members(g: RowGroup): (r: seq<Triple>)
    requires WellFormed(g)
    ensures |r| == |g.cols|
    ensures forall k :: 0 <= k < |r| ==> r[k] == Triple(g.row, g.cols[k], g.names[k])
  {
    seq(|g.cols|, k requires 0 <= k < |g.cols| => Triple(g.row, g.cols[k], g.names[k]))
  }

  predicate AllWellFormed(gs: seq<RowGroup>) { forall i :: 0 <= i < |gs| ==> WellFormed(gs[i]) }

  /** The records of all groups, group after group. */
  function Flatten(gs: seq<RowGroup>): seq<Triple>
    requires AllWellFormed(gs)
  {
    if gs == [] then [] else Flatten(gs[..|gs| - 1]) + Members(gs[|gs| - 1])
  }

  /** Grouping as the loop of write_ins_file does it: a record whose row
      differs from the previous record's row opens a new group (`ln += 1`),
      otherwise it joins the current one.  Defined from the end, so that the
      loop's invariant is `groups == Grouped(all[..i])`. */
  function Grouped(s: seq<Triple>): (gs: seq<RowGroup>)
    ensures AllWellFormed(gs)
    ensures |s| > 0 <==> |gs| > 0
    ensures |s| > 0 ==> gs[|gs| - 1].row == s[|s| - 1].x
  {
    if s == [] then []
    else
      var g := Grouped(s[..|s| - 1]);
      var t := s[|s| - 1];
      if g != [] && g[|g| - 1].row == t.x then
        var last := g[|g| - 1];
        g[..|g| - 1] + [RowGroup(last.row, last.cols + [t.y], last.names + [t.name])]
      else
        g + [RowGroup(t.x, [t.y], [t.name])]
  }

  /** Lines 362-370: the loop driven by `ln` and `x_old`. */
  method GroupByRow(all: seq<Triple>) returns (groups: seq<RowGroup>)
    requires |all| > 0
    ensures groups == Grouped(all)
  {
    groups := [];
    var xOld := all[0].x;
    var i := 0;
    while i < |all|
      invariant 0 <= i <= |all|
      invariant groups == Grouped(all[..i])
      invariant i > 0 ==> xOld == all[i - 1].x
      invariant i == 0 ==> xOld == all[0].x
    {
      var t := all[i];
      ghost var before := groups;
      if groups == [] || t.x != xOld {
        groups := groups + [RowGroup(t.x, [], [])];
      }
      var last := groups[|groups| - 1];
      ghost var mid := groups;
      groups := groups[..|groups| - 1] + [RowGroup(last.row, last.cols + [t.y], last.names + [t.name])];
      GroupStep(all, i, xOld, before, mid, groups);
      xOld := t.x;
      i := i + 1;
    }
    assert all[..|all|] == all;
  }

  // ---------------------------------------------------------------------
  // What the grouping guarantees.

  lemma MembersExtend(g: RowGroup, y: int, name: string)
    requires WellFormed(g)
    ensures Members(RowGroup(g.row, g.cols + [y], g.names + [name])) == Members(g) + [Triple(g.row, y, name)]
  {
  }

  lemma FlattenSnoc(gs: seq<RowGroup>, g: RowGroup)
    requires AllWellFormed(gs) && WellFormed(g)
    ensures AllWellFormed(gs + [g])
    ensures Flatten(gs + [g]) == Flatten(gs) + Members(g)
  {
    assert (gs + [g])[..|gs|] == gs;
  }

  lemma {:induction false} FlattenAppend(a: seq<RowGroup>, b: seq<RowGroup>)
    requires AllWellFormed(a) && AllWellFormed(b)
    ensures AllWellFormed(a + b)
    ensures Flatten(a + b) == Flatten(a) + Flatten(b)
    decreases |b|
  {
    if b == [] {
      assert a + b == a;
    } else {
      var init := b[..|b| - 1];
      var last := b[|b| - 1];
      assert b == init + [last];
      assert a + b == (a + init) + [last];
      FlattenAppend(a, init);
      FlattenSnoc(a + init, last);
      FlattenSnoc(init, last);
    }
  }

  /** The records of group `i` sit, in order, right after those of the
      groups before it. */
  lemma MembersInFlatten(gs: seq<RowGroup>, i: nat)
    requires AllWellFormed(gs) && i < |gs|
    ensures var lo := |Flatten(gs[..i])|;
      lo + |gs[i].cols| <= |Flatten(gs)| && Flatten(gs)[lo..lo + |gs[i].cols|] == Members(gs[i])
  {
    var pre := gs[..i];
    var rest := gs[i + 1..];
    assert gs == (pre + [gs[i]]) + rest;
    assert AllWellFormed(pre) && AllWellFormed(rest);
    FlattenSnoc(pre, gs[i]);
    FlattenAppend(pre + [gs[i]], rest);
    var f := Flatten(gs);
    var lo := |Flatten(pre)|;
    assert f == Flatten(pre) + Members(gs[i]) + Flatten(rest);
    assert f[lo..lo + |gs[i].cols|] == Members(gs[i]);
  }

  /** Grouping loses, adds and reorders nothing. */
  lemma {:induction false} FlattenGrouped(s: seq<Triple>)
    ensures Flatten(Grouped(s)) == s
  {
    if s != [] {
      var p := s[..|s| - 1];
      var t := s[|s| - 1];
      FlattenGrouped(p);
      FlattenGroupedStep(p, t);
      LastSplit(s);
    }
  }

  /** One turn of the loop of GroupByRow: a record on a new row opens a
      group, then the record joins the last group. */
  lemma GroupStep(all: seq<Triple>, i: nat, xOld: int, before: seq<RowGroup>, mid: seq<RowGroup>,
                  after: seq<RowGroup>)
    requires i < |all| && before == Grouped(all[..i]) && (i > 0 ==> xOld == all[i - 1].x)
    requires mid == if before == [] || all[i].x != xOld then before + [RowGroup(all[i].x, [], [])] else before
    requires mid != [] &&
      after == mid[..|mid| - 1] + [RowGroup(mid[|mid| - 1].row, mid[|mid| - 1].cols + [all[i].y],
                                            mid[|mid| - 1].names + [all[i].name])]
    ensures after == Grouped(all[..i + 1])
  {
    var t := all[i];
    PrefixSnoc(all, i);
    GroupedSnoc(all[..i], t);
    assert i > 0 ==> before[|before| - 1].row == all[..i][i - 1].x == xOld;
    var last := mid[|mid| - 1];
    if before == [] || t.x != xOld {
      assert mid[..|mid| - 1] == before;
      assert last.cols + [t.y] == [t.y] && last.names + [t.name] == [t.name];
      assert after == before + [RowGroup(t.x, [t.y], [t.name])];
    } else {
      assert last == before[|before| - 1];
    }
  }

  lemma PrefixSnoc(s: seq<Triple>, i: nat)
    requires i < |s|
    ensures s[..i + 1] == s[..i] + [s[i]]
  {
  }

  lemma LastSplit(s: seq<Triple>)
    requires s != []
    ensures s == s[..|s| - 1] + [s[|s| - 1]]
  {
  }

  lemma FlattenGroupedStep(p: seq<Triple>, t: Triple)
    requires Flatten(Grouped(p)) == p
    ensures Flatten(Grouped(p + [t])) == p + [t]
  {
    GroupedSnoc(p, t);
    var g := Grouped(p);
    if g != [] && g[|g| - 1].row == t.x {
      var last := g[|g| - 1];
      var init := g[..|g| - 1];
      assert g == init + [last];
      assert AllWellFormed(init);
      FlattenSnoc(init, last);
      var last' := RowGroup(last.row, last.cols + [t.y], last.names + [t.name]);
      FlattenSnoc(init, last');
      MembersExtend(last, t.y, t.name);
      SnocAssoc(Flatten(init + [last']), p, Flatten(init), Members(last), t);
    } else {
      FlattenSnoc(g, RowGroup(t.x, [t.y], [t.name]));
      assert Members(RowGroup(t.x, [t.y], [t.name])) == [t];
    }
  }

  lemma SnocAssoc(x: seq<Triple>, y: seq<Triple>, a: seq<Triple>, b: seq<Triple>, t: Triple)
    requires x == a + (b + [t]) && y == a + b
    ensures x == y + [t]
  {
  }

  /** Every group holds at least one record and consecutive groups lie on
      different rows. */
  predicate Shaped(gs: seq<RowGroup>)
  {
    (forall i :: 0 <= i < |gs| ==> |gs[i].cols| >= 1) &&
    (forall i :: 0 < i < |gs| ==> gs[i - 1].row != gs[i].row)
  }

  lemma {:induction false} GroupedShape(s: seq<Triple>)
    ensures Shaped(Grouped(s))
  {
    if s != [] {
      var p := s[..|s| - 1];
      var t := s[|s| - 1];
      GroupedShape(p);
      LastSplit(s);
      GroupedSnoc(p, t);
      ShapedStep(Grouped(p), t);
    }
  }

  lemma ShapedStep(g: seq<RowGroup>, t: Triple)
    requires Shaped(g)
    ensures Shaped(if g != [] && g[|g| - 1].row == t.x then
                     g[..|g| - 1] + [RowGroup(t.x, g[|g| - 1].cols + [t.y], g[|g| - 1].names + [t.name])]
                   else g + [RowGroup(t.x, [t.y], [t.name])])
  {
    if g != [] && g[|g| - 1].row == t.x {
      var r := g[..|g| - 1] + [RowGroup(t.x, g[|g| - 1].cols + [t.y], g[|g| - 1].names + [t.name])];
      forall i | 0 <= i < |r| ensures |r[i].cols| >= 1 {
        if i < |g| - 1 { assert r[i] == g[i]; }
      }
      forall i | 0 < i < |r| ensures r[i - 1].row != r[i].row {
        assert r[i - 1] == g[i - 1];
        if i < |g| - 1 { assert r[i] == g[i]; } else { assert r[i].row == g[i].row; }
      }
    } else {
      var r := g + [RowGroup(t.x, [t.y], [t.name])];
      forall i | 0 < i < |r| ensures r[i - 1].row != r[i].row {
        assert r[i - 1] == g[i - 1];
      }
    }
  }

  predicate RowsSorted(s: seq<Triple>) { forall i, j :: 0 <= i < j < |s| ==> s[i].x <= s[j].x }

  function Rows(gs: seq<RowGroup>): (r: seq<int>)
    ensures |r| == |gs| && forall i :: 0 <= i < |gs| ==> r[i] == gs[i].row
  {
    seq(|gs|, i requires 0 <= i < |gs| => gs[i].row)
  }

  function RowSet(s: seq<Triple>): set<int> { set t | t in s :: t.x }

  /** `np.unique(x)`: the distinct values in ascending order. */
  predicate IsUniqueOf(r: seq<int>, xs: set<int>)
  {
    (forall i, j :: 0 <= i < j < |r| ==> r[i] < r[j]) && (set v | v in r) == xs
  }

  function RowValues(gs: seq<RowGroup>): set<int> { set i | 0 <= i < |gs| :: gs[i].row }

  lemma RowValuesSnoc(g: seq<RowGroup>, x: RowGroup)
    ensures RowValues(g + [x]) == RowValues(g) + {x.row}
  {
    var gx := g + [x];
    assert gx[|g|].row == x.row;
    forall v | v in RowValues(gx) ensures v in RowValues(g) + {x.row} {
      var i :| 0 <= i < |gx| && gx[i].row == v;
      if i < |g| { assert g[i].row == v; }
    }
    forall v | v in RowValues(g) ensures v in RowValues(gx) {
      var i :| 0 <= i < |g| && g[i].row == v;
      assert gx[i].row == v;
    }
  }

  /** One step of Grouped, for a record `t` that follows `p`. */
  lemma GroupedSnoc(p: seq<Triple>, t: Triple)
    ensures var g := Grouped(p);
      Grouped(p + [t]) ==
        if g != [] && g[|g| - 1].row == t.x then
          g[..|g| - 1] + [RowGroup(t.x, g[|g| - 1].cols + [t.y], g[|g| - 1].names + [t.name])]
        else g + [RowGroup(t.x, [t.y], [t.name])]
  {
    assert (p + [t])[..|p|] == p;
  }

  /** The group rows are exactly the row indices of the records. */
  lemma {:induction false} GroupedRowValues(s: seq<Triple>)
    ensures RowValues(Grouped(s)) == RowSet(s)
  {
    if s != [] {
      var p := s[..|s| - 1];
      var t := s[|s| - 1];
      GroupedRowValues(p);
      LastSplit(s);
      assert RowSet(s) == RowSet(p) + {t.x};
      GroupedSnoc(p, t);
      var g := Grouped(p);
      if g != [] && g[|g| - 1].row == t.x {
        var init := g[..|g| - 1];
        assert g == init + [g[|g| - 1]];
        RowValuesSnoc(init, g[|g| - 1]);
        RowValuesSnoc(init, RowGroup(t.x, g[|g| - 1].cols + [t.y], g[|g| - 1].names + [t.name]));
      } else {
        RowValuesSnoc(g, RowGroup(t.x, [t.y], [t.name]));
      }
    }
  }

  predicate RowsAscend(gs: seq<RowGroup>, bound: int)
  {
    (forall i, j :: 0 <= i < j < |gs| ==> gs[i].row < gs[j].row) &&
    (forall i :: 0 <= i < |gs| ==> gs[i].row <= bound)
  }

  lemma RowsAscendReplaceLast(g: seq<RowGroup>, x: RowGroup, bound: int)
    requires g != [] && RowsAscend(g, g[|g| - 1].row) && x.row == g[|g| - 1].row <= bound
    ensures RowsAscend(g[..|g| - 1] + [x], bound)
  {
    var g' := g[..|g| - 1] + [x];
    assert forall i :: 0 <= i < |g| ==> g'[i].row == g[i].row;
  }

  lemma RowsAscendSnoc(g: seq<RowGroup>, x: RowGroup, last: int)
    requires RowsAscend(g, last) && (g != [] ==> last < x.row)
    ensures RowsAscend(g + [x], x.row)
  {
    var g' := g + [x];
    assert forall i :: 0 <= i < |g| ==> g'[i].row == g[i].row;
  }

  /** On row-sorted input the group rows strictly ascend. */
  lemma {:induction false} GroupedRowsAscend(s: seq<Triple>)
    requires RowsSorted(s) && s != []
    ensures RowsAscend(Grouped(s), s[|s| - 1].x)
  {
    var p := s[..|s| - 1];
    var t := s[|s| - 1];
    LastSplit(s);
    if p == [] {
      assert Grouped(s) == [RowGroup(t.x, [t.y], [t.name])];
    } else {
      var u := p[|p| - 1];
      assert RowsSorted(p) && u.x <= t.x by {
        assert u == s[|s| - 2];
      }
      GroupedRowsAscend(p);
      AscendStep(p, t);
    }
  }

  lemma {:induction false} AscendStep(p: seq<Triple>, t: Triple)
    requires p != [] && RowsAscend(Grouped(p), p[|p| - 1].x) && p[|p| - 1].x <= t.x
    ensures RowsAscend(Grouped(p + [t]), t.x)
  {
    GroupedSnoc(p, t);
    var g := Grouped(p);
    if g[|g| - 1].row == t.x {
      RowsAscendReplaceLast(g, RowGroup(t.x, g[|g| - 1].cols + [t.y], g[|g| - 1].names + [t.name]), t.x);
    } else {
      RowsAscendSnoc(g, RowGroup(t.x, [t.y], [t.name]), p[|p| - 1].x);
    }
  }

  /** On sorted input the group rows are exactly `j_list = np.unique(x)`,
      so `ln` never outruns `n_lines` and line i of the file is row
      `j_list[i]`. */
  lemma GroupRowsAreUnique(s: seq<Triple>)
    requires RowsSorted(s)
    ensures IsUniqueOf(Rows(Grouped(s)), RowSet(s))
  {
    if s != [] { GroupedRowsAscend(s); }
    GroupedRowValues(s);
    assert forall i, j :: 0 <= i < j < |Grouped(s)| ==> Grouped(s)[i].row < Grouped(s)[j].row;
    var r := Rows(Grouped(s));
    assert (set v | v in r) == RowValues(Grouped(s)) by {
      forall v | v in r ensures v in RowValues(Grouped(s)) {
        var i :| 0 <= i < |r| && r[i] == v;
      }
    }
  }
}
