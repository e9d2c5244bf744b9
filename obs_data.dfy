/** `get_obs_data` on a table that `read_csv` has already parsed: the row
    and column of each record in the model output file, the record names,
    weights and groups, and the removal of incomplete records. */
module ObsData {
  import opened Wrappers
  import opened Text
  import opened Seqs
  import opened Dates

  /** Stands for a float cell of a data file (a measurement or a weight). */
  type Value = int

  /** A data file after `read_csv(..., parse_dates=[0])`: the header, the
      dates of the first column and the other cells row by row, `None`
      where the file says NA, na or NaN. */
  datatype Table<T> = Table(header: seq<string>, dates: seq<Date>, cells: seq<seq<Option<T>>>)

  predicate Shaped<T>(t: Table<T>)
  {
    |t.header| >= 1 && |t.cells| == |t.dates| &&
    forall i :: 0 <= i < |t.cells| ==> |t.cells[i]| == |t.header| - 1
  }

  /** What `read_csv` produces for the observation file: a rectangular
      table with distinct column names and real dates. */
  predicate WellFormed(t: Table<Value>)
  {
    Shaped(t) && Distinct(t.header) && forall i :: 0 <= i < |t.dates| ==> Valid(t.dates[i])
  }

  datatype ObsError =
    | RowIndLength     // the `row_ind` assignment: lengths differ (ValueError)
    | IdColumnMissing  // melt of a names/weights/groups file without the date column (KeyError)

  // ---------------------------------------------------------------------
  // Row indices (input_output.py:92-95).

  /** The offsets below `n` of the days of `range` that occur among
      `dates`, ascending: `np.where(np.in1d(datevec, dates))[0]`. */
  function Hits(range: seq<Date>, dates: seq<Date>, n: nat): (h: seq<int>)
    requires n <= |range|
    ensures Increasing(h)
    ensures forall k :: 0 <= k < |h| ==> 0 <= h[k] < n && range[h[k]] in dates
    ensures forall k :: 0 <= k < n && range[k] in dates ==> k in h
  {
    if n == 0 then []
    else
      var p := Hits(range, dates, n - 1);
      if range[n - 1] in dates then p + [n - 1] else p
  }

  /** `obs_data.loc[:, 'row_ind'] = row_inds`: row i gets entry i of the
      offsets; pandas refuses an array of another length. */
  function RowInds(start: Date, end: Date, dates: seq<Date>): (r: Result<seq<int>, ObsError>)
    requires Valid(start) && Valid(end)
    ensures r.Ok? ==> |r.value| == |dates|
  {
    var range := DateRange(start, end);
    var h := Hits(range, dates, |range|);
    if |h| == |dates| then Ok(h) else Err(RowIndLength)
  }

  predicate AllValid(dates: seq<Date>) { forall i :: 0 <= i < |dates| ==> Valid(dates[i]) }

  predicate InRange(start: Date, end: Date, d: Date)
    requires Valid(start) && Valid(end) && Valid(d)
  {
    DayNumber(start) <= DayNumber(d) <= DayNumber(end)
  }

  function InRangeSet(start: Date, end: Date, dates: seq<Date>): set<Date>
    requires Valid(start) && Valid(end)
  {
    set d | d in dates && Valid(d) && DayNumber(start) <= DayNumber(d) <= DayNumber(end)
  }

  function HitDates(range: seq<Date>, h: seq<int>): (hd: seq<Date>)
    requires forall k :: 0 <= k < |h| ==> 0 <= h[k] < |range|
    ensures |hd| == |h| && forall k :: 0 <= k < |h| ==> hd[k] == range[h[k]]
  {
    seq(|h|, k requires 0 <= k < |h| => range[h[k]])
  }

  predicate Numbered(start: Date, range: seq<Date>)
    requires Valid(start)
  {
    forall k :: 0 <= k < |range| ==> Valid(range[k]) && DayNumber(range[k]) == DayNumber(start) + k
  }

  lemma HitDatesDistinct(start: Date, range: seq<Date>, h: seq<int>)
    requires Valid(start) && Numbered(start, range)
    requires Increasing(h) && forall k :: 0 <= k < |h| ==> 0 <= h[k] < |range|
    ensures |SeqSet(HitDates(range, h))| == |h|
  {
    var hd := HitDates(range, h);
    forall k, l | 0 <= k < l < |hd| ensures hd[k] != hd[l] {
      assert DayNumber(hd[k]) == DayNumber(start) + h[k];
      assert DayNumber(hd[l]) == DayNumber(start) + h[l];
    }
    SeqSetCard(hd);
  }

  lemma InRangeHit(start: Date, end: Date, dates: seq<Date>, d: Date)
    requires Valid(start) && Valid(end)
    requires d in InRangeSet(start, end, dates)
    ensures var range := DateRange(start, end);
      d in SeqSet(HitDates(range, Hits(range, dates, |range|)))
  {
    var range := DateRange(start, end);
    var h := Hits(range, dates, |range|);
    InDateRange(start, end, d);
    var o := DayNumber(d) - DayNumber(start);
    assert range[o] == d;
    assert o in h;
    var k :| 0 <= k < |h| && h[k] == o;
    assert HitDates(range, h)[k] == d;
  }

  lemma HitInRange(start: Date, end: Date, dates: seq<Date>, d: Date)
    requires Valid(start) && Valid(end)
    ensures var range := DateRange(start, end);
      d in SeqSet(HitDates(range, Hits(range, dates, |range|))) ==> d in InRangeSet(start, end, dates)
  {
    var range := DateRange(start, end);
    var h := Hits(range, dates, |range|);
    var hd := HitDates(range, h);
    if d in SeqSet(hd) {
      var k :| 0 <= k < |hd| && hd[k] == d;
      assert range[h[k]] == d;
    }
  }

  /** There are as many offsets as distinct dates within the range. */
  lemma HitsCount(start: Date, end: Date, dates: seq<Date>)
    requires Valid(start) && Valid(end)
    ensures var range := DateRange(start, end);
      |Hits(range, dates, |range|)| == |InRangeSet(start, end, dates)|
  {
    var range := DateRange(start, end);
    var h := Hits(range, dates, |range|);
    HitDatesDistinct(start, range, h);
    forall d | d in InRangeSet(start, end, dates) ensures d in SeqSet(HitDates(range, h)) {
      InRangeHit(start, end, dates, d);
    }
    forall d | d in SeqSet(HitDates(range, h)) ensures d in InRangeSet(start, end, dates) {
      HitInRange(start, end, dates, d);
    }
    assert SeqSet(HitDates(range, h)) == InRangeSet(start, end, dates);
  }

  lemma AllInRange(start: Date, end: Date, dates: seq<Date>)
    requires Valid(start) && Valid(end) && AllValid(dates)
    requires forall i :: 0 <= i < |dates| ==> InRange(start, end, dates[i])
    ensures InRangeSet(start, end, dates) == SeqSet(dates)
  {
    forall d | d in SeqSet(dates) ensures d in InRangeSet(start, end, dates) {
      var i :| 0 <= i < |dates| && dates[i] == d;
      assert InRange(start, end, dates[i]);
    }
  }

  lemma SomeOutOfRange(start: Date, end: Date, dates: seq<Date>, i: nat)
    requires Valid(start) && Valid(end) && AllValid(dates)
    requires i < |dates| && !InRange(start, end, dates[i])
    ensures |InRangeSet(start, end, dates)| < |SeqSet(dates)|
  {
    SubsetCard(InRangeSet(start, end, dates), SeqSet(dates));
    assert dates[i] in SeqSet(dates);
  }

  /** The row-index assignment succeeds exactly when no two rows share a
      date and every date lies within [start_date, end_date]. */
  lemma RowIndsOkIff(start: Date, end: Date, dates: seq<Date>)
    requires Valid(start) && Valid(end) && AllValid(dates)
    ensures RowInds(start, end, dates).Ok? <==>
      Distinct(dates) && forall i :: 0 <= i < |dates| ==> InRange(start, end, dates[i])
  {
    HitsCount(start, end, dates);
    SeqSetCard(dates);
    SubsetCard(InRangeSet(start, end, dates), SeqSet(dates));
    var range := DateRange(start, end);
    var n := |Hits(range, dates, |range|)|;
    assert RowInds(start, end, dates).Ok? <==> n == |dates|;
    if forall i :: 0 <= i < |dates| ==> InRange(start, end, dates[i]) {
      AllInRange(start, end, dates);
    } else {
      var i :| 0 <= i < |dates| && !InRange(start, end, dates[i]);
      SomeOutOfRange(start, end, dates, i);
    }
  }

  /** The offset of each date from start_date. */
  function Offsets(start: Date, dates: seq<Date>): (e: seq<int>)
    requires Valid(start) && AllValid(dates)
    ensures |e| == |dates| && forall i :: 0 <= i < |dates| ==> e[i] == DayNumber(dates[i]) - DayNumber(start)
  {
    seq(|dates|, i requires 0 <= i < |dates| => DayNumber(dates[i]) - DayNumber(start))
  }

  lemma HitIsOffset(start: Date, end: Date, dates: seq<Date>, v: int)
    requires Valid(start) && Valid(end) && AllValid(dates)
    ensures var range := DateRange(start, end);
      v in Hits(range, dates, |range|) ==> v in Offsets(start, dates)
  {
    var range := DateRange(start, end);
    if v in Hits(range, dates, |range|) {
      var i :| 0 <= i < |dates| && dates[i] == range[v];
      assert Offsets(start, dates)[i] == v;
    }
  }

  lemma OffsetIsHit(start: Date, end: Date, dates: seq<Date>, i: nat)
    requires Valid(start) && Valid(end) && AllValid(dates)
    requires i < |dates| && InRange(start, end, dates[i])
    ensures var range := DateRange(start, end);
      Offsets(start, dates)[i] in Hits(range, dates, |range|)
  {
    var range := DateRange(start, end);
    InDateRange(start, end, dates[i]);
    assert range[Offsets(start, dates)[i]] == dates[i];
  }

  /** When the dates run forward within the range, each row's index is
      the offset of its date from start_date. */
  lemma RowIndsAreOffsets(start: Date, end: Date, dates: seq<Date>)
    requires Valid(start) && Valid(end) && AllValid(dates)
    requires forall i :: 0 <= i < |dates| ==> InRange(start, end, dates[i])
    requires forall i, j :: 0 <= i < j < |dates| ==> DayNumber(dates[i]) < DayNumber(dates[j])
    ensures RowInds(start, end, dates).Ok?
    ensures var rows := RowInds(start, end, dates).value;
      forall i :: 0 <= i < |dates| ==> rows[i] == DayNumber(dates[i]) - DayNumber(start)
  {
    RowIndsOkIff(start, end, dates);
    var range := DateRange(start, end);
    var h := Hits(range, dates, |range|);
    var e := Offsets(start, dates);
    forall v | v in SeqSet(h) ensures v in SeqSet(e) {
      HitIsOffset(start, end, dates, v);
    }
    forall v | v in SeqSet(e) ensures v in SeqSet(h) {
      var i :| 0 <= i < |e| && e[i] == v;
      OffsetIsHit(start, end, dates, i);
    }
    IncreasingSameSet(e, h);
  }

  // ---------------------------------------------------------------------
  // Melt and column indices (input_output.py:97-101).

  function Column<T>(grid: seq<seq<T>>, v: nat): (c: seq<T>)
    requires forall i :: 0 <= i < |grid| ==> v < |grid[i]|
    ensures |c| == |grid| && forall i :: 0 <= i < |grid| ==> c[i] == grid[i][v]
  {
    seq(|grid|, i requires 0 <= i < |grid| => grid[i][v])
  }

  /** The layout of `pd.melt`: the first `nv` value columns one after the
      other, each read top to bottom. */
  function Melt<T>(grid: seq<seq<T>>, nv: nat): (m: seq<T>)
    requires forall i :: 0 <= i < |grid| ==> |grid[i]| >= nv
    ensures |m| == nv * |grid|
  {
    if nv == 0 then []
    else
      assert (nv - 1) * |grid| + |grid| == nv * |grid|;
      Melt(grid, nv - 1) + Column(grid, nv - 1)
  }

  /** The melt position of value column `v` of row `i`, of `n` rows. */
  function Pos(n: nat, v: nat, i: nat): nat { v * n + i }

  /** Value column `v` of row `i` lands at position `v * n + i`. */
  lemma {:induction false} MeltAt<T>(grid: seq<seq<T>>, nv: nat, v: nat, i: nat)
    requires forall k :: 0 <= k < |grid| ==> |grid[k]| >= nv
    requires v < nv && i < |grid|
    ensures Pos(|grid|, v, i) < |Melt(grid, nv)| && Melt(grid, nv)[Pos(|grid|, v, i)] == grid[i][v]
  {
    if v < nv - 1 {
      MeltAt(grid, nv - 1, v, i);
    } else {
      assert Melt(grid, nv) == Melt(grid, nv - 1) + Column(grid, nv - 1);
    }
  }

  /** Every position of the melt is one value column of one row. */
  lemma {:induction false} MeltPosition<T>(grid: seq<seq<T>>, nv: nat, p: nat) returns (v: nat, i: nat)
    requires forall k :: 0 <= k < |grid| ==> |grid[k]| >= nv
    requires p < nv * |grid|
    ensures v < nv && i < |grid| && p == Pos(|grid|, v, i)
  {
    if p < (nv - 1) * |grid| {
      v, i := MeltPosition(grid, nv - 1, p);
    } else {
      v, i := nv - 1, p - (nv - 1) * |grid|;
    }
  }

  /** `np.where(np.in1d(colnames, colnames[1:]))[0]`, the positions below
      `n`: the replacement values for the variable names. */
  function TailPositions(header: seq<string>, n: nat): seq<int>
    requires 1 <= |header| && n <= |header|
  {
    if n == 0 then []
    else TailPositions(header, n - 1) + (if header[n - 1] in header[1..] then [n - 1] else [])
  }

  /** With distinct column names the replacement values are 1, 2, ...:
      variable `colnames[j]` gets `col_ind` j. */
  lemma {:induction false} TailPositionsOfDistinct(header: seq<string>, n: nat)
    requires Distinct(header) && 1 <= n <= |header|
    ensures |TailPositions(header, n)| == n - 1
    ensures forall k :: 0 <= k < n - 1 ==> TailPositions(header, n)[k] == k + 1
  {
    if n == 1 {
      forall k | 0 <= k < |header| - 1 ensures header[1..][k] != header[0] {
        assert header[1..][k] == header[k + 1];
      }
      assert TailPositions(header, 0) == [];
    } else {
      TailPositionsOfDistinct(header, n - 1);
      assert header[1..][n - 2] == header[n - 1];
    }
  }

  /** One record of `pd.melt(obs_data, id_vars=[colnames[0], 'row_ind'])`
      with its `col_ind`; `index` is its position, the frame's label. */
  datatype Cell = Cell(index: nat, date: Date, rowInd: int, variable: string, colInd: int, value: Option<Value>)

  /** Row `i`, value column `v`, as the record it becomes. */
  function CellGrid(t: Table<Value>, rows: seq<int>): (g: seq<seq<Cell>>)
    requires WellFormed(t) && |rows| == |t.dates|
    ensures |g| == |t.dates| && forall i :: 0 <= i < |g| ==> |g[i]| == |t.header| - 1
  {
    var n := |t.dates|;
    TailPositionsOfDistinct(t.header, |t.header|);
    var targets := TailPositions(t.header, |t.header|);
    seq(n, i requires 0 <= i < n =>
      seq(|t.header| - 1, v requires 0 <= v < |t.header| - 1 =>
        Cell(Pos(n, v, i), t.dates[i], rows[i], t.header[v + 1], targets[v], t.cells[i][v])))
  }

  function Cells(t: Table<Value>, rows: seq<int>): (m: seq<Cell>)
    requires WellFormed(t) && |rows| == |t.dates|
    ensures |m| == (|t.header| - 1) * |t.dates|
  {
    Melt(CellGrid(t, rows), |t.header| - 1)
  }

  lemma CellDatesValid(t: Table<Value>, rows: seq<int>)
    requires WellFormed(t) && |rows| == |t.dates|
    ensures forall p :: 0 <= p < |Cells(t, rows)| ==> Valid(Cells(t, rows)[p].date)
  {
    var g := CellGrid(t, rows);
    var m := Cells(t, rows);
    forall p | 0 <= p < |m| ensures Valid(m[p].date) {
      var v, i := MeltPosition(g, |t.header| - 1, p);
      MeltAt(g, |t.header| - 1, v, i);
    }
  }

  /** Record `v * n + i` of the melt is value column `v` (variable
      `colnames[v + 1]`, `col_ind` `v + 1`) of row `i`. */
  lemma CellAt(t: Table<Value>, rows: seq<int>, v: nat, i: nat)
    requires WellFormed(t) && |rows| == |t.dates|
    requires v < |t.header| - 1 && i < |t.dates|
    ensures var p := Pos(|t.dates|, v, i);
      p < |Cells(t, rows)| &&
      Cells(t, rows)[p] == Cell(p, t.dates[i], rows[i], t.header[v + 1], v + 1, t.cells[i][v])
  {
    var g := CellGrid(t, rows);
    var w := |t.header| - 1;
    assert g[i][v] == Cell(Pos(|t.dates|, v, i), t.dates[i], rows[i], t.header[v + 1], v + 1, t.cells[i][v]) by {
      GridAt(t, rows, v, i);
    }
    assert Pos(|g|, v, i) < |Melt(g, w)| && Melt(g, w)[Pos(|g|, v, i)] == g[i][v] by {
      MeltAt(g, w, v, i);
    }
  }

  lemma GridAt(t: Table<Value>, rows: seq<int>, v: nat, i: nat)
    requires WellFormed(t) && |rows| == |t.dates|
    requires v < |t.header| - 1 && i < |t.dates|
    ensures CellGrid(t, rows)[i][v] ==
      Cell(Pos(|t.dates|, v, i), t.dates[i], rows[i], t.header[v + 1], v + 1, t.cells[i][v])
  {
    TailPositionsOfDistinct(t.header, |t.header|);
  }

  // ---------------------------------------------------------------------
  // Names, weights and groups (input_output.py:103-135).

  /** `obsnames`: 'default', the path of a file of names, or a prefix. */
  datatype NameSource = DefaultNames | NamesFile(names: Table<string>) | NamePrefix(prefix: string)
  /** `weights`: the path of a file of weights, or one number for all. */
  datatype WeightSource = WeightsFile(weights: Table<Value>) | Weight(weight: Value)
  /** `groups`: 'default', the path of a file of groups, or one group. */
  datatype GroupSource = DefaultGroups | GroupsFile(groups: Table<string>) | Group(group: string)

  /** The file's date column comes first, if it has one at all. */
  predicate KeyedBy<T>(f: Table<T>, idColumn: string)
  {
    Shaped(f) && (idColumn in f.header ==> f.header[0] == idColumn)
  }

  /** `pd.melt(file, id_vars=[colnames[0]]).loc[:, 'value']` assigned to
      `count` records. The assignment aligns on the index: record p takes
      entry p of the melted file, or NaN where the file has none. */
  function FileColumn<T>(f: Table<T>, idColumn: string, count: nat): (r: Result<seq<Option<T>>, ObsError>)
    requires KeyedBy(f, idColumn)
    ensures r.Err? <==> idColumn !in f.header
    ensures r.Err? ==> r.error == IdColumnMissing
    ensures r.Ok? ==> |r.value| == count
  {
    if idColumn !in f.header then Err(IdColumnMissing)
    else Ok(seq(count, p requires 0 <= p < count => FileEntry(f, p)))
  }

  /** Entry `p` of the melted file, NaN past its end. */
  function FileEntry<T>(f: Table<T>, p: nat): Option<T>
    requires Shaped(f)
  {
    var m := Melt(f.cells, |f.header| - 1);
    if p < |m| then m[p] else None
  }

  predicate SourcesKeyed(idColumn: string, names: NameSource, weights: WeightSource, groups: GroupSource)
  {
    (names.NamesFile? ==> KeyedBy(names.names, idColumn)) &&
    (weights.WeightsFile? ==> KeyedBy(weights.weights, idColumn)) &&
    (groups.GroupsFile? ==> KeyedBy(groups.groups, idColumn))
  }

  function DefaultName(c: Cell): string
    requires Valid(c.date)
  {
    c.variable + "_" + Stamp(c.date)
  }

  function NameColumn(src: NameSource, idColumn: string, cells: seq<Cell>): (r: Result<seq<Option<string>>, ObsError>)
    requires src.NamesFile? ==> KeyedBy(src.names, idColumn)
    requires forall p :: 0 <= p < |cells| ==> Valid(cells[p].date)
    ensures r.Ok? ==> |r.value| == |cells|
  {
    match src
    case DefaultNames => Ok(seq(|cells|, p requires 0 <= p < |cells| => Some(DefaultName(cells[p]))))
    case NamesFile(f) => FileColumn(f, idColumn, |cells|)
    case NamePrefix(prefix) => Ok(seq(|cells|, p requires 0 <= p < |cells| => Some(prefix + IntToString(cells[p].index))))
  }

  function WeightColumn(src: WeightSource, idColumn: string, count: nat): (r: Result<seq<Option<Value>>, ObsError>)
    requires src.WeightsFile? ==> KeyedBy(src.weights, idColumn)
    ensures r.Ok? ==> |r.value| == count
  {
    match src
    case WeightsFile(f) => FileColumn(f, idColumn, count)
    case Weight(w) => Ok(seq(count, p => Some(w)))
  }

  function GroupColumn(src: GroupSource, idColumn: string, cells: seq<Cell>): (r: Result<seq<Option<string>>, ObsError>)
    requires src.GroupsFile? ==> KeyedBy(src.groups, idColumn)
    ensures r.Ok? ==> |r.value| == |cells|
  {
    match src
    case DefaultGroups => Ok(seq(|cells|, p requires 0 <= p < |cells| => Some(cells[p].variable)))
    case GroupsFile(f) => FileColumn(f, idColumn, |cells|)
    case Group(g) => Ok(seq(|cells|, p => Some(g)))
  }

  // ---------------------------------------------------------------------
  // dropna (input_output.py:137-138) and the whole pipeline.

  /** A record of the returned frame. */
  datatype Obs = Obs(index: nat, date: Date, rowInd: int, variable: string, colInd: int,
                     value: Value, name: string, weight: Value, group: string)

  /** The record of cell `c`, or None when one of its fields is missing. */
  function Record(c: Cell, name: Option<string>, weight: Option<Value>, group: Option<string>): Option<Obs>
  {
    if c.value.Some? && name.Some? && weight.Some? && group.Some? then
      Some(Obs(c.index, c.date, c.rowInd, c.variable, c.colInd, c.value.value, name.value, weight.value, group.value))
    else None
  }

  /** `dropna()`: the complete records, in order. */
  function DropNA(rs: seq<Option<Obs>>): (out: seq<Obs>)
    ensures |out| <= |rs|
    ensures forall o :: o in out <==> Some(o) in rs
  {
    if rs == [] then []
    else
      var last := rs[|rs| - 1];
      assert rs == rs[..|rs| - 1] + [last];
      DropNA(rs[..|rs| - 1]) + (if last.Some? then [last.value] else [])
  }

  function Records(cells: seq<Cell>, names: seq<Option<string>>, weights: seq<Option<Value>>, groups: seq<Option<string>>): (rs: seq<Option<Obs>>)
    requires |names| == |weights| == |groups| == |cells|
    ensures |rs| == |cells| && forall p :: 0 <= p < |cells| ==> rs[p] == Record(cells[p], names[p], weights[p], groups[p])
  {
    seq(|cells|, p requires 0 <= p < |cells| => Record(cells[p], names[p], weights[p], groups[p]))
  }

  /** `get_obs_data` on the parsed observation file `t`. */
  function GetObsData(t: Table<Value>, start: Date, end: Date, names: NameSource, weights: WeightSource, groups: GroupSource)
    : Result<seq<Obs>, ObsError>
    requires WellFormed(t) && Valid(start) && Valid(end)
    requires SourcesKeyed(t.header[0], names, weights, groups)
  {
    var rows :- RowInds(start, end, t.dates);
    var cells := Cells(t, rows);
    CellDatesValid(t, rows);
    var nameCol :- NameColumn(names, t.header[0], cells);
    var weightCol :- WeightColumn(weights, t.header[0], |cells|);
    var groupCol :- GroupColumn(groups, t.header[0], cells);
    Ok(DropNA(Records(cells, nameCol, weightCol, groupCol)))
  }

  predicate RowsOk(t: Table<Value>, start: Date, end: Date)
    requires WellFormed(t) && Valid(start) && Valid(end)
  {
    Distinct(t.dates) && forall i :: 0 <= i < |t.dates| ==> InRange(start, end, t.dates[i])
  }

  /** Some names, weights or groups file lacks the date column. */
  predicate IdMissing(idColumn: string, names: NameSource, weights: WeightSource, groups: GroupSource)
  {
    (names.NamesFile? && idColumn !in names.names.header) ||
    (weights.WeightsFile? && idColumn !in weights.weights.header) ||
    (groups.GroupsFile? && idColumn !in groups.groups.header)
  }

  /** The call fails on the row-index assignment exactly when two rows
      share a date or a date lies outside the simulation period, and
      otherwise only when a names, weights or groups file lacks the date
      column. */
  lemma GetObsDataErrors(t: Table<Value>, start: Date, end: Date, names: NameSource, weights: WeightSource, groups: GroupSource)
    requires WellFormed(t) && Valid(start) && Valid(end)
    requires SourcesKeyed(t.header[0], names, weights, groups)
    ensures var r := GetObsData(t, start, end, names, weights, groups);
      (r == Err(RowIndLength) <==> !RowsOk(t, start, end)) &&
      (r == Err(IdColumnMissing) <==> RowsOk(t, start, end) && IdMissing(t.header[0], names, weights, groups)) &&
      (r.Ok? <==> RowsOk(t, start, end) && !IdMissing(t.header[0], names, weights, groups))
  {
    RowIndsOkIff(start, end, t.dates);
  }

  /** The pieces a successful call assembles its result from. */
  lemma Unfold(t: Table<Value>, start: Date, end: Date, names: NameSource, weights: WeightSource, groups: GroupSource)
    returns (rows: seq<int>, cells: seq<Cell>, nameCol: seq<Option<string>>, weightCol: seq<Option<Value>>, groupCol: seq<Option<string>>)
    requires WellFormed(t) && Valid(start) && Valid(end)
    requires SourcesKeyed(t.header[0], names, weights, groups)
    requires GetObsData(t, start, end, names, weights, groups).Ok?
    ensures RowInds(start, end, t.dates) == Ok(rows) && |rows| == |t.dates|
    ensures cells == Cells(t, rows) && forall p :: 0 <= p < |cells| ==> Valid(cells[p].date)
    ensures NameColumn(names, t.header[0], cells) == Ok(nameCol)
    ensures WeightColumn(weights, t.header[0], |cells|) == Ok(weightCol)
    ensures GroupColumn(groups, t.header[0], cells) == Ok(groupCol)
    ensures |nameCol| == |weightCol| == |groupCol| == |cells|
    ensures GetObsData(t, start, end, names, weights, groups).value == DropNA(Records(cells, nameCol, weightCol, groupCol))
  {
    rows := RowInds(start, end, t.dates).value;
    cells := Cells(t, rows);
    CellDatesValid(t, rows);
    nameCol := NameColumn(names, t.header[0], cells).value;
    weightCol := WeightColumn(weights, t.header[0], |cells|).value;
    groupCol := GroupColumn(groups, t.header[0], cells).value;
  }

  /** What a returned record carries in name, weight and group, by the
      kind of source; `o.index` is its melt position. */
  predicate Sourced(names: NameSource, weights: WeightSource, groups: GroupSource, o: Obs)
    requires Valid(o.date)
    requires names.NamesFile? ==> Shaped(names.names)
    requires weights.WeightsFile? ==> Shaped(weights.weights)
    requires groups.GroupsFile? ==> Shaped(groups.groups)
  {
    (match names
     case DefaultNames => o.name == o.variable + "_" + Stamp(o.date)
     case NamesFile(f) => FileEntry(f, o.index) == Some(o.name)
     case NamePrefix(prefix) => o.name == prefix + IntToString(o.index)) &&
    (match weights
     case WeightsFile(f) => FileEntry(f, o.index) == Some(o.weight)
     case Weight(w) => o.weight == w) &&
    (match groups
     case DefaultGroups => o.group == o.variable
     case GroupsFile(f) => FileEntry(f, o.index) == Some(o.group)
     case Group(g) => o.group == g)
  }

  /** A record of the melt cell at position `v * n + i`. */
  predicate RecordOfCell(t: Table<Value>, rows: seq<int>, o: Obs, v: nat, i: nat)
    requires Shaped(t) && |rows| == |t.dates|
  {
    v < |t.header| - 1 && i < |t.dates| &&
    o.index == Pos(|t.dates|, v, i) && o.date == t.dates[i] && o.rowInd == rows[i] &&
    o.variable == t.header[v + 1] && o.colInd == v + 1 && t.cells[i][v] == Some(o.value)
  }

  predicate SourcesShaped(names: NameSource, weights: WeightSource, groups: GroupSource)
  {
    (names.NamesFile? ==> Shaped(names.names)) &&
    (weights.WeightsFile? ==> Shaped(weights.weights)) &&
    (groups.GroupsFile? ==> Shaped(groups.groups))
  }

  /** Entry `p` of the name column, by the kind of source. */
  function NameOf(src: NameSource, c: Cell, p: nat): Option<string>
    requires Valid(c.date) && (src.NamesFile? ==> Shaped(src.names))
  {
    match src
    case DefaultNames => Some(DefaultName(c))
    case NamesFile(f) => FileEntry(f, p)
    case NamePrefix(prefix) => Some(prefix + IntToString(c.index))
  }

  function WeightOf(src: WeightSource, p: nat): Option<Value>
    requires src.WeightsFile? ==> Shaped(src.weights)
  {
    match src
    case WeightsFile(f) => FileEntry(f, p)
    case Weight(w) => Some(w)
  }

  function GroupOf(src: GroupSource, c: Cell, p: nat): Option<string>
    requires src.GroupsFile? ==> Shaped(src.groups)
  {
    match src
    case DefaultGroups => Some(c.variable)
    case GroupsFile(f) => FileEntry(f, p)
    case Group(g) => Some(g)
  }

  lemma ColumnsAt(names: NameSource, weights: WeightSource, groups: GroupSource, idColumn: string, cells: seq<Cell>,
                  nameCol: seq<Option<string>>, weightCol: seq<Option<Value>>, groupCol: seq<Option<string>>, p: nat)
    requires SourcesKeyed(idColumn, names, weights, groups)
    requires forall q :: 0 <= q < |cells| ==> Valid(cells[q].date)
    requires NameColumn(names, idColumn, cells) == Ok(nameCol)
    requires WeightColumn(weights, idColumn, |cells|) == Ok(weightCol)
    requires GroupColumn(groups, idColumn, cells) == Ok(groupCol)
    requires p < |cells|
    ensures nameCol[p] == NameOf(names, cells[p], p)
    ensures weightCol[p] == WeightOf(weights, p)
    ensures groupCol[p] == GroupOf(groups, cells[p], p)
  {
  }

  lemma SourcedRecord(names: NameSource, weights: WeightSource, groups: GroupSource, c: Cell, o: Obs)
    requires Valid(c.date) && SourcesShaped(names, weights, groups)
    requires Record(c, NameOf(names, c, c.index), WeightOf(weights, c.index), GroupOf(groups, c, c.index)) == Some(o)
    ensures o.index == c.index && o.date == c.date && o.rowInd == c.rowInd && o.variable == c.variable
    ensures o.colInd == c.colInd && c.value == Some(o.value)
    ensures Sourced(names, weights, groups, o)
  {
  }

  lemma RecordPosition(cells: seq<Cell>, nameCol: seq<Option<string>>, weightCol: seq<Option<Value>>, groupCol: seq<Option<string>>, o: Obs)
    returns (p: nat)
    requires |nameCol| == |weightCol| == |groupCol| == |cells|
    requires o in DropNA(Records(cells, nameCol, weightCol, groupCol))
    ensures p < |cells| && Record(cells[p], nameCol[p], weightCol[p], groupCol[p]) == Some(o)
  {
    var rs := Records(cells, nameCol, weightCol, groupCol);
    p :| 0 <= p < |rs| && rs[p] == Some(o);
  }

  lemma CellOfPosition(t: Table<Value>, rows: seq<int>, p: nat) returns (v: nat, i: nat)
    requires WellFormed(t) && |rows| == |t.dates| && p < |Cells(t, rows)|
    ensures v < |t.header| - 1 && i < |t.dates| && p == Pos(|t.dates|, v, i)
    ensures Cells(t, rows)[p] == Cell(p, t.dates[i], rows[i], t.header[v + 1], v + 1, t.cells[i][v])
  {
    v, i := MeltPosition(CellGrid(t, rows), |t.header| - 1, p);
    CellAt(t, rows, v, i);
  }

  lemma RecordFromPieces(t: Table<Value>, rows: seq<int>, names: NameSource, weights: WeightSource, groups: GroupSource,
                         nameCol: seq<Option<string>>, weightCol: seq<Option<Value>>, groupCol: seq<Option<string>>, o: Obs)
    returns (v: nat, i: nat)
    requires WellFormed(t) && |rows| == |t.dates| && SourcesKeyed(t.header[0], names, weights, groups)
    requires forall p :: 0 <= p < |Cells(t, rows)| ==> Valid(Cells(t, rows)[p].date)
    requires NameColumn(names, t.header[0], Cells(t, rows)) == Ok(nameCol)
    requires WeightColumn(weights, t.header[0], |Cells(t, rows)|) == Ok(weightCol)
    requires GroupColumn(groups, t.header[0], Cells(t, rows)) == Ok(groupCol)
    requires o in DropNA(Records(Cells(t, rows), nameCol, weightCol, groupCol))
    ensures RecordOfCell(t, rows, o, v, i) && Valid(o.date) && SourcesShaped(names, weights, groups)
    ensures Sourced(names, weights, groups, o)
  {
    var cells := Cells(t, rows);
    var p := RecordPosition(cells, nameCol, weightCol, groupCol, o);
    v, i := CellOfPosition(t, rows, p);
    ColumnsAt(names, weights, groups, t.header[0], cells, nameCol, weightCol, groupCol, p);
    SourcedRecord(names, weights, groups, cells[p], o);
  }

  /** Every returned record is one cell of the file: value column `v`,
      row `i`, melt position `v * n + i`; its `row_ind` is that row's, its
      `col_ind` is `v + 1`, its value is the cell's, and its name, weight
      and group come from the given sources. */
  lemma ObsRecordAt(t: Table<Value>, start: Date, end: Date, names: NameSource, weights: WeightSource, groups: GroupSource,
                    out: seq<Obs>, o: Obs)
    returns (v: nat, i: nat)
    requires WellFormed(t) && Valid(start) && Valid(end)
    requires SourcesKeyed(t.header[0], names, weights, groups)
    requires GetObsData(t, start, end, names, weights, groups) == Ok(out) && o in out
    ensures RowInds(start, end, t.dates).Ok? && |RowInds(start, end, t.dates).value| == |t.dates|
    ensures RecordOfCell(t, RowInds(start, end, t.dates).value, o, v, i)
    ensures Valid(o.date) && SourcesShaped(names, weights, groups) && Sourced(names, weights, groups, o)
  {
    var rows, cells, nc, wc, gc := Unfold(t, start, end, names, weights, groups);
    v, i := RecordFromPieces(t, rows, names, weights, groups, nc, wc, gc, o);
  }

  /** Whether record `p` has a name, weight and group at all: always,
      except where a file has NaN there or ends before it. */
  predicate Present(names: NameSource, weights: WeightSource, groups: GroupSource, p: nat)
    requires SourcesShaped(names, weights, groups)
  {
    (names.NamesFile? ==> FileEntry(names.names, p).Some?) &&
    (weights.WeightsFile? ==> FileEntry(weights.weights, p).Some?) &&
    (groups.GroupsFile? ==> FileEntry(groups.groups, p).Some?)
  }

  lemma KeptFromPieces(t: Table<Value>, rows: seq<int>, names: NameSource, weights: WeightSource, groups: GroupSource,
                       nameCol: seq<Option<string>>, weightCol: seq<Option<Value>>, groupCol: seq<Option<string>>, v: nat, i: nat)
    requires WellFormed(t) && |rows| == |t.dates| && SourcesKeyed(t.header[0], names, weights, groups)
    requires forall p :: 0 <= p < |Cells(t, rows)| ==> Valid(Cells(t, rows)[p].date)
    requires NameColumn(names, t.header[0], Cells(t, rows)) == Ok(nameCol)
    requires WeightColumn(weights, t.header[0], |Cells(t, rows)|) == Ok(weightCol)
    requires GroupColumn(groups, t.header[0], Cells(t, rows)) == Ok(groupCol)
    requires v < |t.header| - 1 && i < |t.dates|
    ensures SourcesShaped(names, weights, groups)
    ensures var out := DropNA(Records(Cells(t, rows), nameCol, weightCol, groupCol));
      (exists o :: o in out && o.index == Pos(|t.dates|, v, i)) <==>
      t.cells[i][v].Some? && Present(names, weights, groups, Pos(|t.dates|, v, i))
  {
    var out := DropNA(Records(Cells(t, rows), nameCol, weightCol, groupCol));
    var p := Pos(|t.dates|, v, i);
    if t.cells[i][v].Some? && Present(names, weights, groups, p) {
      KeptForward(t, rows, names, weights, groups, nameCol, weightCol, groupCol, v, i);
    }
    if exists o :: o in out && o.index == p {
      var o :| o in out && o.index == p;
      KeptBackward(t, rows, names, weights, groups, nameCol, weightCol, groupCol, o);
      CellAt(t, rows, v, i);
    }
  }

  lemma KeptForward(t: Table<Value>, rows: seq<int>, names: NameSource, weights: WeightSource, groups: GroupSource,
                       nameCol: seq<Option<string>>, weightCol: seq<Option<Value>>, groupCol: seq<Option<string>>, v: nat, i: nat)
    requires WellFormed(t) && |rows| == |t.dates| && SourcesKeyed(t.header[0], names, weights, groups)
    requires forall p :: 0 <= p < |Cells(t, rows)| ==> Valid(Cells(t, rows)[p].date)
    requires NameColumn(names, t.header[0], Cells(t, rows)) == Ok(nameCol)
    requires WeightColumn(weights, t.header[0], |Cells(t, rows)|) == Ok(weightCol)
    requires GroupColumn(groups, t.header[0], Cells(t, rows)) == Ok(groupCol)
    requires v < |t.header| - 1 && i < |t.dates|
    requires SourcesShaped(names, weights, groups)
    requires t.cells[i][v].Some? && Present(names, weights, groups, Pos(|t.dates|, v, i))
    ensures exists o :: o in DropNA(Records(Cells(t, rows), nameCol, weightCol, groupCol)) && o.index == Pos(|t.dates|, v, i)
  {
    var cells := Cells(t, rows);
    var p := Pos(|t.dates|, v, i);
    CellAt(t, rows, v, i);
    ColumnsAt(names, weights, groups, t.header[0], cells, nameCol, weightCol, groupCol, p);
    KeptCell(names, weights, groups, cells[p], t.cells[i][v]);
    KeptInOut(cells, nameCol, weightCol, groupCol, p);
  }

  lemma KeptBackward(t: Table<Value>, rows: seq<int>, names: NameSource, weights: WeightSource, groups: GroupSource,
                       nameCol: seq<Option<string>>, weightCol: seq<Option<Value>>, groupCol: seq<Option<string>>, o: Obs)
    requires WellFormed(t) && |rows| == |t.dates| && SourcesKeyed(t.header[0], names, weights, groups)
    requires forall p :: 0 <= p < |Cells(t, rows)| ==> Valid(Cells(t, rows)[p].date)
    requires NameColumn(names, t.header[0], Cells(t, rows)) == Ok(nameCol)
    requires WeightColumn(weights, t.header[0], |Cells(t, rows)|) == Ok(weightCol)
    requires GroupColumn(groups, t.header[0], Cells(t, rows)) == Ok(groupCol)
    requires o in DropNA(Records(Cells(t, rows), nameCol, weightCol, groupCol))
    ensures SourcesShaped(names, weights, groups)
    ensures o.index < |Cells(t, rows)| && Cells(t, rows)[o.index].value.Some?
    ensures Present(names, weights, groups, o.index)
  {
    var cells := Cells(t, rows);
    var q := RecordPosition(cells, nameCol, weightCol, groupCol, o);
    var v, i := CellOfPosition(t, rows, q);
    ColumnsAt(names, weights, groups, t.header[0], cells, nameCol, weightCol, groupCol, q);
    KeptCell(names, weights, groups, cells[q], cells[q].value);
  }

  lemma KeptInOut(cells: seq<Cell>, nameCol: seq<Option<string>>, weightCol: seq<Option<Value>>, groupCol: seq<Option<string>>, p: nat)
    requires |nameCol| == |weightCol| == |groupCol| == |cells| && p < |cells|
    requires Record(cells[p], nameCol[p], weightCol[p], groupCol[p]).Some?
    ensures var o := Record(cells[p], nameCol[p], weightCol[p], groupCol[p]).value;
      o in DropNA(Records(cells, nameCol, weightCol, groupCol)) && o.index == cells[p].index
  {
    var rs := Records(cells, nameCol, weightCol, groupCol);
    assert rs[p] in rs;
  }

  lemma KeptCell(names: NameSource, weights: WeightSource, groups: GroupSource, c: Cell, value: Option<Value>)
    requires Valid(c.date) && SourcesShaped(names, weights, groups) && c.value == value
    ensures Record(c, NameOf(names, c, c.index), WeightOf(weights, c.index), GroupOf(groups, c, c.index)).Some? <==>
      value.Some? && Present(names, weights, groups, c.index)
  {
  }

  /** A cell survives `dropna` exactly when it has a value and its name,
      weight and group are present. */
  lemma CellKept(t: Table<Value>, start: Date, end: Date, names: NameSource, weights: WeightSource, groups: GroupSource,
                 out: seq<Obs>, v: nat, i: nat)
    requires WellFormed(t) && Valid(start) && Valid(end)
    requires SourcesKeyed(t.header[0], names, weights, groups)
    requires GetObsData(t, start, end, names, weights, groups) == Ok(out)
    requires v < |t.header| - 1 && i < |t.dates|
    ensures SourcesShaped(names, weights, groups)
    ensures (exists o :: o in out && o.index == Pos(|t.dates|, v, i)) <==>
      t.cells[i][v].Some? && Present(names, weights, groups, Pos(|t.dates|, v, i))
  {
    var rows, cells, nc, wc, gc := Unfold(t, start, end, names, weights, groups);
    KeptFromPieces(t, rows, names, weights, groups, nc, wc, gc, v, i);
  }

  // ---------------------------------------------------------------------
  // Order and unique names of the returned records.

  /** `dropna` keeps the records in melt order. */
  lemma {:induction false} DropNAOrdered(rs: seq<Option<Obs>>)
    requires forall p :: 0 <= p < |rs| && rs[p].Some? ==> rs[p].value.index == p
    ensures forall k :: 0 <= k < |DropNA(rs)| ==> DropNA(rs)[k].index < |rs|
    ensures forall k, l :: 0 <= k < l < |DropNA(rs)| ==> DropNA(rs)[k].index < DropNA(rs)[l].index
  {
    if rs != [] {
      DropNAOrdered(rs[..|rs| - 1]);
    }
  }

  /** The returned records keep the order of the melt: variable by
      variable, and within a variable row by row. */
  lemma ObsOrdered(t: Table<Value>, start: Date, end: Date, names: NameSource, weights: WeightSource, groups: GroupSource,
                   out: seq<Obs>)
    requires WellFormed(t) && Valid(start) && Valid(end)
    requires SourcesKeyed(t.header[0], names, weights, groups)
    requires GetObsData(t, start, end, names, weights, groups) == Ok(out)
    ensures forall k, l :: 0 <= k < l < |out| ==> out[k].index < out[l].index
  {
    var rows, cells, nc, wc, gc := Unfold(t, start, end, names, weights, groups);
    IndicesArePositions(t, rows, nc, wc, gc);
    DropNAOrdered(Records(cells, nc, wc, gc));
  }

  lemma IndicesArePositions(t: Table<Value>, rows: seq<int>,
                            nameCol: seq<Option<string>>, weightCol: seq<Option<Value>>, groupCol: seq<Option<string>>)
    requires WellFormed(t) && |rows| == |t.dates|
    requires |nameCol| == |weightCol| == |groupCol| == |Cells(t, rows)|
    ensures var rs := Records(Cells(t, rows), nameCol, weightCol, groupCol);
      forall p :: 0 <= p < |rs| && rs[p].Some? ==> rs[p].value.index == p
  {
    var rs := Records(Cells(t, rows), nameCol, weightCol, groupCol);
    forall p | 0 <= p < |rs| && rs[p].Some? ensures rs[p].value.index == p {
      var v, i := CellOfPosition(t, rows, p);
    }
  }

  lemma PrefixNameInjective(prefix: string, a: int, b: int)
    ensures a != b ==> prefix + IntToString(a) != prefix + IntToString(b)
  {
    if prefix + IntToString(a) == prefix + IntToString(b) {
      assert (prefix + IntToString(a))[|prefix|..] == IntToString(a);
      assert (prefix + IntToString(b))[|prefix|..] == IntToString(b);
      IntToStringInjective(a, b);
    }
  }

  /** Names made from a prefix never repeat. */
  lemma PrefixNamesUnique(t: Table<Value>, start: Date, end: Date, names: NameSource, weights: WeightSource, groups: GroupSource,
                          out: seq<Obs>)
    requires WellFormed(t) && Valid(start) && Valid(end)
    requires SourcesKeyed(t.header[0], names, weights, groups)
    requires GetObsData(t, start, end, names, weights, groups) == Ok(out)
    requires names.NamePrefix?
    ensures forall k, l :: 0 <= k < l < |out| ==> out[k].name != out[l].name
  {
    ObsOrdered(t, start, end, names, weights, groups, out);
    forall k, l | 0 <= k < l < |out| ensures out[k].name != out[l].name {
      var v, i := ObsRecordAt(t, start, end, names, weights, groups, out, out[k]);
      var v', i' := ObsRecordAt(t, start, end, names, weights, groups, out, out[l]);
      PrefixNameInjective(names.prefix, out[k].index, out[l].index);
    }
  }

  lemma DefaultNameInjective(a: string, d: Date, b: string, e: Date)
    requires Valid(d) && d.year < 10000 && Valid(e) && e.year < 10000
    ensures (a, d) != (b, e) ==> a + "_" + Stamp(d) != b + "_" + Stamp(e)
  {
    if a + "_" + Stamp(d) == b + "_" + Stamp(e) {
      StampReadBack(d);
      StampReadBack(e);
      var x, y := a + "_" + Stamp(d), b + "_" + Stamp(e);
      assert |a| == |b|;
      assert x[..|a|] == a && y[..|b|] == b;
      assert x[|a| + 1..] == Stamp(d) && y[|b| + 1..] == Stamp(e);
      StampInjective(d, e);
    }
  }

  /** Default names `variable_YYYYMMDD` never repeat: the call succeeds
      only when no two rows share a date, and column names are distinct. */
  lemma DefaultNamesUnique(t: Table<Value>, start: Date, end: Date, names: NameSource, weights: WeightSource, groups: GroupSource,
                           out: seq<Obs>)
    requires WellFormed(t) && Valid(start) && Valid(end)
    requires SourcesKeyed(t.header[0], names, weights, groups)
    requires GetObsData(t, start, end, names, weights, groups) == Ok(out)
    requires names.DefaultNames?
    requires forall i :: 0 <= i < |t.dates| ==> t.dates[i].year < 10000
    ensures forall k, l :: 0 <= k < l < |out| ==> out[k].name != out[l].name
  {
    ObsOrdered(t, start, end, names, weights, groups, out);
    GetObsDataErrors(t, start, end, names, weights, groups);
    forall k, l | 0 <= k < l < |out| ensures out[k].name != out[l].name {
      var v, i := ObsRecordAt(t, start, end, names, weights, groups, out, out[k]);
      var v', i' := ObsRecordAt(t, start, end, names, weights, groups, out, out[l]);
      assert v != v' || i != i';
      DistinctCells(t, v, i, v', i');
      DefaultNameInjective(out[k].variable, out[k].date, out[l].variable, out[l].date);
    }
  }

  lemma DistinctCells(t: Table<Value>, v: nat, i: nat, v': nat, i': nat)
    requires WellFormed(t) && Distinct(t.dates)
    requires v < |t.header| - 1 && v' < |t.header| - 1 && i < |t.dates| && i' < |t.dates|
    ensures (v != v' || i != i') ==> (t.header[v + 1], t.dates[i]) != (t.header[v' + 1], t.dates[i'])
  {
  }

  lemma RowIndsIncreasing(start: Date, end: Date, dates: seq<Date>)
    requires Valid(start) && Valid(end)
    ensures RowInds(start, end, dates).Ok? ==> Increasing(RowInds(start, end, dates).value)
  {
  }

  /** No two records share a `(row_ind, col_ind)` cell: each comes from
      its own cell of the table, and rows get distinct row indices. Every
      col_ind is that of a value column, so at least 1. */
  lemma ObsCoordsUnique(t: Table<Value>, start: Date, end: Date, names: NameSource, weights: WeightSource, groups: GroupSource,
                        out: seq<Obs>)
    requires WellFormed(t) && Valid(start) && Valid(end)
    requires SourcesKeyed(t.header[0], names, weights, groups)
    requires GetObsData(t, start, end, names, weights, groups) == Ok(out)
    ensures forall k, l :: 0 <= k < l < |out| ==> (out[k].rowInd, out[k].colInd) != (out[l].rowInd, out[l].colInd)
    ensures forall k :: 0 <= k < |out| ==> out[k].colInd >= 1
  {
    forall k | 0 <= k < |out| ensures out[k].colInd >= 1 {
      var v, i := ObsRecordAt(t, start, end, names, weights, groups, out, out[k]);
    }
    ObsOrdered(t, start, end, names, weights, groups, out);
    RowIndsIncreasing(start, end, t.dates);
    forall k, l | 0 <= k < l < |out| ensures (out[k].rowInd, out[k].colInd) != (out[l].rowInd, out[l].colInd) {
      var v, i := ObsRecordAt(t, start, end, names, weights, groups, out, out[k]);
      var v', i' := ObsRecordAt(t, start, end, names, weights, groups, out, out[l]);
      assert v != v' || i != i';
    }
  }

  /** A scalar weight and a literal group are broadcast to every record. */
  lemma BroadcastSources(t: Table<Value>, start: Date, end: Date, names: NameSource, weights: WeightSource, groups: GroupSource,
                         out: seq<Obs>)
    requires WellFormed(t) && Valid(start) && Valid(end)
    requires SourcesKeyed(t.header[0], names, weights, groups)
    requires GetObsData(t, start, end, names, weights, groups) == Ok(out)
    ensures weights.Weight? ==> forall k :: 0 <= k < |out| ==> out[k].weight == weights.weight
    ensures groups.Group? ==> forall k :: 0 <= k < |out| ==> out[k].group == groups.group
    ensures groups.DefaultGroups? ==> forall k :: 0 <= k < |out| ==> out[k].group == out[k].variable
  {
    forall k | 0 <= k < |out|
      ensures weights.Weight? ==> out[k].weight == weights.weight
      ensures groups.Group? ==> out[k].group == groups.group
      ensures groups.DefaultGroups? ==> out[k].group == out[k].variable
    {
      var v, i := ObsRecordAt(t, start, end, names, weights, groups, out, out[k]);
    }
  }
}
