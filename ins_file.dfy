/** `write_ins_file`: the PEST instruction file for the observation and
    prediction coordinates. */
module InsFile {
  import opened Wrappers
  import opened Text
  import opened InsOrder
  import opened InsGroup

  /** The exceptions write_ins_file can raise before it opens its output. */
  datatype InsError =
    | CoordinatesInCommon  // ValueError: observations and predictions share an (x, y)
    | NoRecords            // IndexError: `all_inds['x'][0]` on an empty merge

  // ---------------------------------------------------------------------
  // Input coercion and the overlap check.

  /** A name stored in a `'<U' + str(field_wd)` field keeps at most
      `field_wd` characters. */
  function Truncate(name: string, fieldWd: nat): (r: string)
    ensures |r| == if |name| <= fieldWd then |name| else fieldWd
    ensures r == name[..|r|]
  {
    if |name| <= fieldWd then name else name[..fieldWd]
  }

  /** `np.array(inds, dtype=[('x', int), ('y', int), ('obsname', '<U..')])`. */
  function Coerce(inds: seq<Triple>, fieldWd: nat): (r: seq<Triple>)
    ensures |r| == |inds|
    ensures forall i :: 0 <= i < |r| ==>
      r[i] == Triple(inds[i].x, inds[i].y, Truncate(inds[i].name, fieldWd))
  {
    seq(|inds|, i requires 0 <= i < |inds| => Triple(inds[i].x, inds[i].y, Truncate(inds[i].name, fieldWd)))
  }

  function Coords(inds: seq<Triple>): set<(int, int)>
  {
    set i | 0 <= i < |inds| :: (inds[i].x, inds[i].y)
  }

  /** The test `not set(obs[['x','y']]).isdisjoint(pred[['x','y']])`. */
  predicate CoordsOverlap(obs: seq<Triple>, pred: seq<Triple>)
  {
    !(Coords(obs) !! Coords(pred))
  }

  /** The check fires exactly when some observation and some prediction
      share both coordinates; names and duplicates within one list play
      no part. */
  lemma CoordsOverlapIff(obs: seq<Triple>, pred: seq<Triple>)
    ensures CoordsOverlap(obs, pred) <==>
      (exists i, j :: 0 <= i < |obs| && 0 <= j < |pred| && obs[i].x == pred[j].x && obs[i].y == pred[j].y)
  {
    if CoordsOverlap(obs, pred) {
      var p :| p in Coords(obs) && p in Coords(pred);
      var i :| 0 <= i < |obs| && (obs[i].x, obs[i].y) == p;
      var j :| 0 <= j < |pred| && (pred[j].x, pred[j].y) == p;
      assert obs[i].x == pred[j].x && obs[i].y == pred[j].y;
    } else {
      forall i, j | 0 <= i < |obs| && 0 <= j < |pred|
        ensures !(obs[i].x == pred[j].x && obs[i].y == pred[j].y)
      {
        assert (obs[i].x, obs[i].y) in Coords(obs);
        assert (pred[j].x, pred[j].y) in Coords(pred);
      }
    }
  }

  // ---------------------------------------------------------------------
  // The instruction file as a value, and its text.

  /** What one column of a line becomes: a capture token `!name!`, nothing
      (column 0 without a record), or the filler `!dum!`. */
  datatype Field = Capture(name: string) | Skip | Dummy

  /** One line of the file after the header: the line advance `l<N>` and one
      field per column. */
  datatype InsLine = InsLine(advance: int, fields: seq<Field>)

  /** `v.index(k)` on a Python list: the first position holding `k`. */
  function IndexOf(s: seq<int>, k: int): (i: nat)
    requires k in s
    ensures i < |s| && s[i] == k
    ensures forall j :: 0 <= j < i ==> s[j] != k
  {
    if s[0] == k then 0 else 1 + IndexOf(s[1..], k)
  }

  /** Column k of a line: the membership test comes before the `k == 0`
      test, so a record in column 0 is captured. */
  function FieldAt(g: RowGroup, k: int): Field
    requires WellFormed(g)
  {
    if k in g.cols then Capture(g.names[IndexOf(g.cols, k)])
    else if k == 0 then Skip
    else Dummy
  }

  /** `range(ncols)` is empty for a negative count. */
  function ColumnCount(ncols: int): nat { if ncols < 0 then 0 else ncols }

  function Fields(g: RowGroup, m: nat): (r: seq<Field>)
    requires WellFormed(g)
    ensures |r| == m && forall k :: 0 <= k < m ==> r[k] == FieldAt(g, k)
  {
    seq(m, k requires 0 <= k < m => FieldAt(g, k))
  }

  /** The first advance moves past the header onto row `j_list[0]`; each
      later one is the distance between consecutive rows. */
  function Advance(gs: seq<RowGroup>, i: nat, nlHeader: int): int
    requires i < |gs|
  {
    if i == 0 then gs[0].row + nlHeader + 1 else gs[i].row - gs[i - 1].row
  }

  /** The lines written for the groups, one per group. */
  function InsDoc(gs: seq<RowGroup>, ncols: int, nlHeader: int): (doc: seq<InsLine>)
    requires AllWellFormed(gs)
    ensures |doc| == |gs|
    ensures forall i :: 0 <= i < |gs| ==>
      doc[i] == InsLine(Advance(gs, i, nlHeader), Fields(gs[i], ColumnCount(ncols)))
  {
    seq(|gs|, i requires 0 <= i < |gs| =>
      InsLine(Advance(gs, i, nlHeader), Fields(gs[i], ColumnCount(ncols))))
  }

  function FieldText(f: Field): string
  {
    match f
    case Capture(n) => " !" + n + "!"
    case Skip => ""
    case Dummy => " !dum!"
  }

  function Separator(delimiter: string): string { " @" + delimiter + "@" }

  /** The file as written before line `i`: the header, then lines 0..i-1. */
  function Written(gs: seq<RowGroup>, i: nat, ncols: int, nlHeader: int, delimiter: string): string
    requires AllWellFormed(gs) && i <= |gs|
    decreases i, 0
  {
    if i == 0 then "pif @\n"
    else WrittenLine(gs, i - 1, ColumnCount(ncols), ncols, nlHeader, delimiter) + "\n"
  }

  /** The file as written before column `k` of line `i`: the line advance,
      then per column its token and a separator unless it is the last. */
  function WrittenLine(gs: seq<RowGroup>, i: nat, k: nat, ncols: int, nlHeader: int,
                       delimiter: string): string
    requires AllWellFormed(gs) && i < |gs|
    decreases i, 1, k
  {
    if k == 0 then Written(gs, i, ncols, nlHeader, delimiter) + ("l" + IntToString(Advance(gs, i, nlHeader)))
    else
      var t := WrittenLine(gs, i, k - 1, ncols, nlHeader, delimiter) + FieldText(FieldAt(gs[i], k - 1));
      if k - 1 != ncols - 1 then t + Separator(delimiter) else t
  }

  /** The whole text of the file. */
  function Render(gs: seq<RowGroup>, ncols: int, nlHeader: int, delimiter: string): string
    requires AllWellFormed(gs)
  {
    Written(gs, |gs|, ncols, nlHeader, delimiter)
  }

  /** The text write_ins_file writes for its arguments, when it raises nothing. */
  function InsText(obsInds: seq<Triple>, predInds: seq<Triple>, ncols: int, nlHeader: int,
                   fieldWd: nat, delimiter: string): string
  {
    var all := Sort(Coerce(obsInds, fieldWd) + Coerce(predInds, fieldWd));
    Render(Grouped(all), ncols, nlHeader, delimiter)
  }

  // ---------------------------------------------------------------------
  // The writing loop (lines 372-391), with f.write as appending to `text`.

  lemma WrittenUnfold(gs: seq<RowGroup>, i: nat, ncols: int, nlHeader: int, delimiter: string)
    requires AllWellFormed(gs) && i < |gs|
    ensures WrittenLine(gs, i, 0, ncols, nlHeader, delimiter) ==
      Written(gs, i, ncols, nlHeader, delimiter) + ("l" + IntToString(Advance(gs, i, nlHeader)))
    ensures Written(gs, i + 1, ncols, nlHeader, delimiter) ==
      WrittenLine(gs, i, ColumnCount(ncols), ncols, nlHeader, delimiter) + "\n"
  {
  }

  lemma WrittenLineUnfold(gs: seq<RowGroup>, i: nat, k: nat, ncols: int, nlHeader: int, delimiter: string)
    requires AllWellFormed(gs) && i < |gs|
    ensures WrittenLine(gs, i, k + 1, ncols, nlHeader, delimiter) ==
      var t := WrittenLine(gs, i, k, ncols, nlHeader, delimiter) + FieldText(FieldAt(gs[i], k));
      if k != ncols - 1 then t + Separator(delimiter) else t
  {
  }

  /** The column tokens of line `i` (lines 378-389), appended to `text`. */
  method WriteColumns(groups: seq<RowGroup>, i: nat, ncols: int, nlHeader: int, delimiter: string,
                      prefix: string)
    returns (text: string)
    requires AllWellFormed(groups) && i < |groups|
    requires prefix == WrittenLine(groups, i, 0, ncols, nlHeader, delimiter)
    ensures text == WrittenLine(groups, i, ColumnCount(ncols), ncols, nlHeader, delimiter)
  {
    var g := groups[i];
    text := prefix;
    var k := 0;
    while k < ncols
      invariant 0 <= k <= ColumnCount(ncols)
      invariant text == WrittenLine(groups, i, k, ncols, nlHeader, delimiter)
    {
      WrittenLineUnfold(groups, i, k, ncols, nlHeader, delimiter);
      ghost var before := text;
      if k in g.cols {
        var ind := IndexOf(g.cols, k);
        text := text + (" !" + g.names[ind] + "!");
      } else if k == 0 {
        assert text == before + FieldText(FieldAt(g, k));
      } else {
        text := text + " !dum!";
      }
      ghost var t := text;
      assert t == before + FieldText(FieldAt(g, k));
      if k != ncols - 1 {
        text := text + (" @" + delimiter + "@");
      }
      assert text == if k != ncols - 1 then t + Separator(delimiter) else t;
      k := k + 1;
    }
  }

  /** The lines of the file, one per row group (lines 372-391). */
  method WriteLines(groups: seq<RowGroup>, ncols: int, nlHeader: int, delimiter: string)
    returns (text: string)
    requires AllWellFormed(groups)
    ensures text == Render(groups, ncols, nlHeader, delimiter)
  {
    text := "pif @\n";
    var nLines := |groups|;
    var i := 0;
    while i < nLines
      invariant 0 <= i <= nLines
      invariant text == Written(groups, i, ncols, nlHeader, delimiter)
    {
      var g := groups[i];
      WrittenUnfold(groups, i, ncols, nlHeader, delimiter);
      if i == 0 {
        text := text + ("l" + IntToString(g.row + nlHeader + 1));
      } else {
        text := text + ("l" + IntToString(g.row - groups[i - 1].row));
      }
      text := WriteColumns(groups, i, ncols, nlHeader, delimiter, text);
      text := text + "\n";
      i := i + 1;
    }
  }

  /** write_ins_file: the text of the instruction file, or the exception
      raised before the file is opened. */
  method WriteInsFile(obsInds: seq<Triple>, predInds: seq<Triple>, ncols: int,
                      nlHeader: int, fieldWd: nat, delimiter: string)
    returns (r: Result<string, InsError>)
    ensures r == Err(CoordinatesInCommon) <==> CoordsOverlap(obsInds, predInds)
    ensures r == Err(NoRecords) <==> !CoordsOverlap(obsInds, predInds) && obsInds == [] && predInds == []
    ensures r.Ok? ==> r.value == InsText(obsInds, predInds, ncols, nlHeader, fieldWd, delimiter)
  {
    var obs := Coerce(obsInds, fieldWd);
    var pred := Coerce(predInds, fieldWd);
    CoordsOverlapCoerce(obsInds, predInds, fieldWd);
    if CoordsOverlap(obs, pred) {
      return Err(CoordinatesInCommon);
    }
    var all := Sort(obs + pred);
    if |all| == 0 {
      return Err(NoRecords);
    }
    var groups := GroupByRow(all);
    var text := WriteLines(groups, ncols, nlHeader, delimiter);
    return Ok(text);
  }

  /** Truncating names does not change the coordinates. */
  lemma CoordsOverlapCoerce(obs: seq<Triple>, pred: seq<Triple>, fieldWd: nat)
    ensures CoordsOverlap(Coerce(obs, fieldWd), Coerce(pred, fieldWd)) == CoordsOverlap(obs, pred)
  {
    var o := Coerce(obs, fieldWd);
    var p := Coerce(pred, fieldWd);
    assert Coords(o) == Coords(obs) by {
      forall c | c in Coords(obs) ensures c in Coords(o) {
        var i :| 0 <= i < |obs| && (obs[i].x, obs[i].y) == c;
        assert (o[i].x, o[i].y) == c;
      }
    }
    assert Coords(p) == Coords(pred) by {
      forall c | c in Coords(pred) ensures c in Coords(p) {
        var i :| 0 <= i < |pred| && (pred[i].x, pred[i].y) == c;
        assert (p[i].x, p[i].y) == c;
      }
    }
  }
}
