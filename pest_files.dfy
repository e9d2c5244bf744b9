/** The part of `write_pest_files` that reads the observation and
    prediction files and writes the template and instruction files: the
    argument check, the zero prediction weight and the column count handed
    to the instruction writer. */
module PestFiles {
  import opened Wrappers
  import opened Text
  import opened Dates
  import opened ObsData
  import opened InsOrder
  import InsGroup
  import InsFile
  import InsNames
  import Writers

  /** An `obs_file` or `pred_file` argument, parsed, with the sources of
      its names and groups. */
  datatype DataFile = DataFile(table: Table<Value>, names: NameSource, groups: GroupSource)

  /** The exceptions raised before the control file is built. */
  datatype PestError =
    | NoDataFiles                          // ValueError: obs_file and pred_file both None
    | DataError(dataError: ObsError)          // raised by get_obs_data
    | InsFileError(insError: InsFile.InsError) // raised by write_ins_file before it opens its file
    | ColumnCountNaN                       // TypeError: `range(ncols)` with ncols NaN

  /** A file written: its path and its whole text. */
  datatype File = File(path: string, text: string)

  /** The files written, in order, and how the call ends: the merged
      records handed on to the control file, or the exception. */
  datatype Run = Run(files: seq<File>, outcome: Result<seq<Obs>, PestError>)

  /** `field_wd=20` at line 579; `nl_header` keeps its default of 1. */
  const FieldWd: nat := 20
  const NlHeader: int := 1

  /** What get_obs_data demands of a file read with a weight source. */
  predicate Ready(f: DataFile, weights: WeightSource)
  {
    WellFormed(f.table) && SourcesKeyed(f.table.header[0], f.names, weights, f.groups)
  }

  /** get_obs_data on a file that is supplied; None for one that is not. */
  function Read(f: Option<DataFile>, weights: WeightSource, start: Date, end: Date): Option<Result<seq<Obs>, ObsError>>
    requires Valid(start) && Valid(end)
    requires f.Some? ==> Ready(f.value, weights)
  {
    if f.None? then None else Some(GetObsData(f.value.table, start, end, f.value.names, weights, f.value.groups))
  }

  /** The frame of a file that was supplied and read without error. */
  function Frame(r: Option<Result<seq<Obs>, ObsError>>): Option<seq<Obs>>
  {
    if r.Some? && r.value.Ok? then Some(r.value.value) else None
  }

  // ---------------------------------------------------------------------
  // ncols (lines 566-577).

  /** `np.max(data['col_ind'])` of a non-empty frame. */
  function MaxCol(recs: seq<Obs>): (m: int)
    requires recs != []
    ensures forall k :: 0 <= k < |recs| ==> recs[k].colInd <= m
    ensures exists k :: 0 <= k < |recs| && recs[k].colInd == m
  {
    if |recs| == 1 then recs[0].colInd
    else
      var p := recs[..|recs| - 1];
      var m := MaxCol(p);
      var c := recs[|recs| - 1].colInd;
      var k :| 0 <= k < |p| && p[k].colInd == m;
      assert recs[k] == p[k];
      if c > m then c else m
  }

  /** `ncols = np.max([ncols, np.max(data['col_ind']) + 1])`, with None
      for NaN: `np.max` of an empty column is NaN, and NaN wins every
      later maximum. */
  function ColsStep(ncols: Option<int>, recs: seq<Obs>): Option<int>
  {
    if ncols.None? || recs == [] then None
    else if MaxCol(recs) + 1 > ncols.value then Some(MaxCol(recs) + 1)
    else ncols
  }

  /** The column count over the frames that were read, starting from 1. */
  function NColumns(obs: Option<seq<Obs>>, pred: Option<seq<Obs>>): Option<int>
  {
    var n := if obs.Some? then ColsStep(Some(1), obs.value) else Some(1);
    if pred.Some? then ColsStep(n, pred.value) else n
  }

  function Supplied(d: Option<seq<Obs>>): seq<Obs> { if d.Some? then d.value else [] }

  /** The count is NaN exactly when a frame that was read is empty;
      otherwise it is the least number of at least 1 above every col_ind. */
  lemma NColumnsBounds(obs: Option<seq<Obs>>, pred: Option<seq<Obs>>)
    ensures NColumns(obs, pred).None? <==> (obs.Some? && obs.value == []) || (pred.Some? && pred.value == [])
    ensures NColumns(obs, pred).Some? ==>
      var n := NColumns(obs, pred).value;
      var all := Supplied(obs) + Supplied(pred);
      n >= 1 && (forall k :: 0 <= k < |all| ==> all[k].colInd < n) &&
      (n == 1 || exists k :: 0 <= k < |all| && all[k].colInd == n - 1)
  {
    var all := Supplied(obs) + Supplied(pred);
    var a, b := Supplied(obs), Supplied(pred);
    if NColumns(obs, pred).Some? {
      var n := NColumns(obs, pred).value;
      forall k | 0 <= k < |all| ensures all[k].colInd < n {
        if k < |a| {
          assert all[k] == a[k];
        } else {
          assert all[k] == b[k - |a|];
        }
      }
      if n != 1 {
        var m1 := if a != [] then MaxCol(a) else 0;
        var m2 := if b != [] then MaxCol(b) else 0;
        if b != [] && n == m2 + 1 {
          var j :| 0 <= j < |b| && b[j].colInd == m2;
          assert all[|a| + j] == b[j];
        } else {
          var j :| 0 <= j < |a| && a[j].colInd == m1;
          assert all[j] == a[j];
        }
      }
    }
  }

  /** `list(map(tuple, data.loc[:, ['row_ind', 'col_ind', 'obsname']].to_numpy()))`. */
  function Inds(recs: seq<Obs>): (r: seq<Triple>)
    ensures |r| == |recs|
    ensures forall k :: 0 <= k < |recs| ==> r[k] == Triple(recs[k].rowInd, recs[k].colInd, recs[k].name)
  {
    seq(|recs|, k requires 0 <= k < |recs| => Triple(recs[k].rowInd, recs[k].colInd, recs[k].name))
  }

  /** What write_ins_file has written when `range(ncols)` raises on a NaN
      count: the header and the first line's advance. */
  function InsPrefix(obsInds: seq<Triple>, predInds: seq<Triple>): string
    requires obsInds + predInds != []
  {
    var all := Sort(InsFile.Coerce(obsInds, FieldWd) + InsFile.Coerce(predInds, FieldWd));
    "pif @\n" + ("l" + IntToString(all[0].x + NlHeader + 1))
  }

  /** The instruction file's part of the run once the template `tpl` is
      written, for the coordinates, the column count and the merged records. */
  function InsRun(tpl: File, insFile: string, obsInds: seq<Triple>, predInds: seq<Triple>, ncols: Option<int>,
                  all: seq<Obs>, delimiter: string): Run
  {
    if InsFile.CoordsOverlap(obsInds, predInds) then Run([tpl], Err(InsFileError(InsFile.CoordinatesInCommon)))
    else if obsInds == [] && predInds == [] then Run([tpl], Err(InsFileError(InsFile.NoRecords)))
    else match ncols
      case None => Run([tpl, File(insFile, InsPrefix(obsInds, predInds))], Err(ColumnCountNaN))
      case Some(n) =>
        Run([tpl, File(insFile, InsFile.InsText(obsInds, predInds, n, NlHeader, FieldWd, delimiter))], Ok(all))
  }

  /** The template and instruction files for the frames that were read. */
  function AuxRun(parNames: seq<string>, tplFile: string, insFile: string, obs: Option<seq<Obs>>, pred: Option<seq<Obs>>,
                  delimiter: string): Run
  {
    InsRun(File(tplFile, Writers.TplWritten(parNames, |parNames|)), insFile, Inds(Supplied(obs)), Inds(Supplied(pred)),
           NColumns(obs, pred), Supplied(obs) + Supplied(pred), delimiter)
  }

  /** The run of write_pest_files up to the control file. */
  function PestRun(start: Date, end: Date, parNames: seq<string>, obsFile: Option<DataFile>, obsWeights: WeightSource,
                   predFile: Option<DataFile>, tplFile: string, insFile: string, delimiter: string): Run
    requires Valid(start) && Valid(end)
    requires obsFile.Some? ==> Ready(obsFile.value, obsWeights)
    requires predFile.Some? ==> Ready(predFile.value, Weight(0))
  {
    if obsFile.None? && predFile.None? then Run([], Err(NoDataFiles))
    else ReadRun(Read(obsFile, obsWeights, start, end), Read(predFile, Weight(0), start, end),
                 parNames, tplFile, insFile, delimiter)
  }

  /** The run once the arguments are checked, for what reading the
      observation file and then the prediction file gave. */
  function ReadRun(obs: Option<Result<seq<Obs>, ObsError>>, pred: Option<Result<seq<Obs>, ObsError>>,
                   parNames: seq<string>, tplFile: string, insFile: string, delimiter: string): Run
  {
    if obs.Some? && obs.value.Err? then Run([], Err(DataError(obs.value.error)))
    else if pred.Some? && pred.value.Err? then Run([], Err(DataError(pred.value.error)))
    else AuxRun(parNames, tplFile, insFile, Frame(obs), Frame(pred), delimiter)
  }

  /** write_pest_files up to the control file: the files it writes, in
      order, and the merged records or the exception. */
  method WritePestFiles(start: Date, end: Date, parNames: seq<string>, obsFile: Option<DataFile>, obsWeights: WeightSource,
                        predFile: Option<DataFile>, tplFile: string, insFile: string, delimiter: string)
    returns (files: seq<File>, r: Result<seq<Obs>, PestError>)
    requires Valid(start) && Valid(end)
    requires obsFile.Some? ==> Ready(obsFile.value, obsWeights)
    requires predFile.Some? ==> Ready(predFile.value, Weight(0))
    ensures Run(files, r) == PestRun(start, end, parNames, obsFile, obsWeights, predFile, tplFile, insFile, delimiter)
  {
    files := [];
    if obsFile.None? && predFile.None? {
      return files, Err(NoDataFiles);
    }
    var obs := Read(obsFile, obsWeights, start, end);
    if obs.Some? && obs.value.Err? {
      return files, Err(DataError(obs.value.error));
    }
    var pred := Read(predFile, Weight(0), start, end);
    if pred.Some? && pred.value.Err? {
      return files, Err(DataError(pred.value.error));
    }
    files, r := WriteAuxFiles(parNames, tplFile, insFile, Frame(obs), Frame(pred), delimiter);
  }

  /** The template file, then the instruction file for the frames read. */
  method WriteAuxFiles(parNames: seq<string>, tplFile: string, insFile: string,
                       obs: Option<seq<Obs>>, pred: Option<seq<Obs>>, delimiter: string)
    returns (files: seq<File>, r: Result<seq<Obs>, PestError>)
    ensures Run(files, r) == AuxRun(parNames, tplFile, insFile, obs, pred, delimiter)
  {
    var tpl := Writers.WriteTplFile(parNames);
    var ncols: Option<int> := Some(1);
    var obsInds: seq<Triple> := [];
    var predInds: seq<Triple> := [];
    if obs.Some? {
      obsInds := Inds(obs.value);
      ncols := ColsStep(ncols, obs.value);
    }
    if pred.Some? {
      predInds := Inds(pred.value);
      ncols := ColsStep(ncols, pred.value);
    }
    assert obsInds == Inds(Supplied(obs)) && predInds == Inds(Supplied(pred));
    files, r := WriteInstructions(File(tplFile, tpl), insFile, obsInds, predInds, ncols,
                                  Supplied(obs) + Supplied(pred), delimiter);
  }

  /** write_ins_file after the template `tpl` is written. */
  method WriteInstructions(tpl: File, insFile: string, obsInds: seq<Triple>, predInds: seq<Triple>, ncols: Option<int>,
                           all: seq<Obs>, delimiter: string)
    returns (files: seq<File>, r: Result<seq<Obs>, PestError>)
    ensures Run(files, r) == InsRun(tpl, insFile, obsInds, predInds, ncols, all, delimiter)
  {
    files := [tpl];
    if ncols.Some? {
      var ins := InsFile.WriteInsFile(obsInds, predInds, ncols.value, NlHeader, FieldWd, delimiter);
      if ins.Err? {
        assert ins.error == InsFile.CoordinatesInCommon || ins.error == InsFile.NoRecords;
        return files, Err(InsFileError(ins.error));
      }
      files := [tpl, File(insFile, ins.value)];
    } else {
      // write_ins_file gets as far as the first advance before range(NaN) raises
      if InsFile.CoordsOverlap(obsInds, predInds) {
        return files, Err(InsFileError(InsFile.CoordinatesInCommon));
      }
      if obsInds == [] && predInds == [] {
        return files, Err(InsFileError(InsFile.NoRecords));
      }
      files := [tpl, File(insFile, InsPrefix(obsInds, predInds))];
      return files, Err(ColumnCountNaN);
    }
    r := Ok(all);
  }

  // ---------------------------------------------------------------------
  // Properties of the run.

  /** Both data files may be left out only one at a time. */
  lemma ArgumentCheck(start: Date, end: Date, parNames: seq<string>, obsFile: Option<DataFile>,
                      obsWeights: WeightSource, predFile: Option<DataFile>, tplFile: string,
                      insFile: string, delimiter: string)
    requires Valid(start) && Valid(end)
    requires obsFile.Some? ==> Ready(obsFile.value, obsWeights)
    requires predFile.Some? ==> Ready(predFile.value, Weight(0))
    ensures var run := PestRun(start, end, parNames, obsFile, obsWeights, predFile, tplFile, insFile, delimiter);
      (run.outcome == Err(NoDataFiles) <==> obsFile.None? && predFile.None?) &&
      (obsFile.None? && predFile.None? ==> run.files == [])
  {
    if obsFile.Some? || predFile.Some? {
      ReadRunShape(Read(obsFile, obsWeights, start, end), Read(predFile, Weight(0), start, end),
                   parNames, tplFile, insFile, delimiter);
    }
  }

  /** Nothing is written unless every file supplied was read; then the
      template file comes first and the instruction file second, and a
      run that succeeds writes both. */
  lemma ReadRunShape(obs: Option<Result<seq<Obs>, ObsError>>, pred: Option<Result<seq<Obs>, ObsError>>,
                     parNames: seq<string>, tplFile: string, insFile: string, delimiter: string)
    ensures var run := ReadRun(obs, pred, parNames, tplFile, insFile, delimiter);
      var readFailed := (obs.Some? && obs.value.Err?) || (pred.Some? && pred.value.Err?);
      (run.files == [] <==> readFailed) &&
      (readFailed <==> run.outcome.Err? && run.outcome.error.DataError?) &&
      run.outcome != Err(NoDataFiles) &&
      |run.files| <= 2 &&
      (run.files != [] ==> run.files[0] == File(tplFile, Writers.TplWritten(parNames, |parNames|))) &&
      (|run.files| == 2 ==> run.files[1].path == insFile) &&
      (run.outcome.Ok? ==> |run.files| == 2)
  {
  }

  /** The records handed on are the observations followed by the
      predictions, of the frames that were read. */
  lemma MergedRecords(obs: Option<Result<seq<Obs>, ObsError>>, pred: Option<Result<seq<Obs>, ObsError>>,
                      parNames: seq<string>, tplFile: string, insFile: string, delimiter: string)
    ensures var run := ReadRun(obs, pred, parNames, tplFile, insFile, delimiter);
      run.outcome.Ok? ==>
        (obs.Some? ==> obs.value.Ok?) && (pred.Some? ==> pred.value.Ok?) &&
        run.outcome.value == Supplied(Frame(obs)) + Supplied(Frame(pred))
  {
  }

  /** Predictions are read with weight 0, and a scalar observation weight
      goes to every observation. */
  lemma FrameWeights(f: Option<DataFile>, weights: WeightSource, start: Date, end: Date)
    requires Valid(start) && Valid(end)
    requires f.Some? ==> Ready(f.value, weights)
    ensures var d := Supplied(Frame(Read(f, weights, start, end)));
      weights.Weight? ==> forall k :: 0 <= k < |d| ==> d[k].weight == weights.weight
  {
    var d := Frame(Read(f, weights, start, end));
    if d.Some? {
      var g := f.value;
      BroadcastSources(g.table, start, end, g.names, weights, g.groups, d.value);
    }
  }

  /** A run that succeeds hands on the observations followed by the
      predictions, and every prediction has weight 0. */
  lemma PredictionsWeightZero(start: Date, end: Date, parNames: seq<string>, obsFile: Option<DataFile>,
                             obsWeights: WeightSource, predFile: Option<DataFile>, tplFile: string,
                             insFile: string, delimiter: string)
    requires Valid(start) && Valid(end)
    requires obsFile.Some? ==> Ready(obsFile.value, obsWeights)
    requires predFile.Some? ==> Ready(predFile.value, Weight(0))
    ensures var run := PestRun(start, end, parNames, obsFile, obsWeights, predFile, tplFile, insFile, delimiter);
      var obs := Supplied(Frame(Read(obsFile, obsWeights, start, end)));
      var pred := Supplied(Frame(Read(predFile, Weight(0), start, end)));
      run.outcome.Ok? ==>
        run.outcome.value == obs + pred && forall k :: 0 <= k < |pred| ==> pred[k].weight == 0
  {
    if obsFile.Some? || predFile.Some? {
      MergedRecords(Read(obsFile, obsWeights, start, end), Read(predFile, Weight(0), start, end),
                    parNames, tplFile, insFile, delimiter);
    }
    FrameWeights(predFile, Weight(0), start, end);
  }

  predicate CellsUnique(recs: seq<Obs>)
  {
    forall k, l :: 0 <= k < l < |recs| ==> (recs[k].rowInd, recs[k].colInd) != (recs[l].rowInd, recs[l].colInd)
  }

  predicate ValueColumns(recs: seq<Obs>)
  {
    forall k :: 0 <= k < |recs| ==> recs[k].colInd >= 1
  }

  /** A frame that was read has its records in distinct cells of value columns. */
  lemma FrameCells(f: Option<DataFile>, weights: WeightSource, start: Date, end: Date)
    requires Valid(start) && Valid(end)
    requires f.Some? ==> Ready(f.value, weights)
    ensures CellsUnique(Supplied(Frame(Read(f, weights, start, end))))
    ensures ValueColumns(Supplied(Frame(Read(f, weights, start, end))))
  {
    var d := Frame(Read(f, weights, start, end));
    if d.Some? {
      var g := f.value;
      ObsCoordsUnique(g.table, start, end, g.names, weights, g.groups, d.value);
    }
  }

  lemma IndsAppend(a: seq<Obs>, b: seq<Obs>)
    ensures Inds(a) + Inds(b) == Inds(a + b)
  {
    assert forall k :: 0 <= k < |a| ==> (a + b)[k] == a[k];
    assert forall k :: |a| <= k < |a| + |b| ==> (a + b)[k] == b[k - |a|];
  }

  /** Two frames with unique cells and no cell in common, all of whose
      columns lie in [1, n), give write_ins_file what it needs. */
  lemma MergedCells(a: seq<Obs>, b: seq<Obs>, n: int)
    requires CellsUnique(a) && CellsUnique(b) && ValueColumns(a) && ValueColumns(b)
    requires forall k :: 0 <= k < |a + b| ==> (a + b)[k].colInd < n
    requires !InsFile.CoordsOverlap(Inds(a), Inds(b))
    ensures InsNames.UniqueCoords(Inds(a) + Inds(b)) && InsNames.ColsInRange(Inds(a) + Inds(b), n)
  {
    IndsAppend(a, b);
    InsFile.CoordsOverlapIff(Inds(a), Inds(b));
    var m := a + b;
    forall i, j | 0 <= i < j < |m| ensures (m[i].rowInd, m[i].colInd) != (m[j].rowInd, m[j].colInd) {
      if j < |a| {
        assert m[i] == a[i] && m[j] == a[j];
      } else if i >= |a| {
        assert m[i] == b[i - |a|] && m[j] == b[j - |a|];
      } else {
        assert m[i] == a[i] && m[j] == b[j - |a|];
        assert Inds(a)[i] == Triple(a[i].rowInd, a[i].colInd, a[i].name);
        assert Inds(b)[j - |a|] == Triple(b[j - |a|].rowInd, b[j - |a|].colInd, b[j - |a|].name);
      }
    }
    forall k | 0 <= k < |m| ensures m[k].colInd >= 1 {
      if k < |a| {
        assert m[k] == a[k];
      } else {
        assert m[k] == b[k - |a|];
      }
    }
  }

  /** For frames whose records sit in distinct cells of value columns (as
      every frame get_obs_data returns does, see FrameCells), a run that
      succeeds gives write_ins_file a column count above every col_ind and
      no two records in one cell, so the instruction file captures the
      name of every observation and prediction (as cut to 20 characters),
      once each and in sorted order. */
  lemma InstructionsCaptureRecords(obs: Option<seq<Obs>>, pred: Option<seq<Obs>>,
                                   parNames: seq<string>, tplFile: string, insFile: string, delimiter: string)
    requires CellsUnique(Supplied(obs)) && ValueColumns(Supplied(obs))
    requires CellsUnique(Supplied(pred)) && ValueColumns(Supplied(pred))
    ensures var run := AuxRun(parNames, tplFile, insFile, obs, pred, delimiter);
      var obsInds := Inds(Supplied(obs));
      var predInds := Inds(Supplied(pred));
      var all := Sort(InsFile.Coerce(obsInds, FieldWd) + InsFile.Coerce(predInds, FieldWd));
      run.outcome.Ok? ==>
        NColumns(obs, pred).Some? &&
        InsNames.ColsInRange(obsInds + predInds, NColumns(obs, pred).value) &&
        InsNames.UniqueCoords(obsInds + predInds) &&
        run.files[1].text == InsFile.InsText(obsInds, predInds, NColumns(obs, pred).value, NlHeader, FieldWd, delimiter) &&
        InsNames.AllCaptured(InsFile.InsDoc(InsGroup.Grouped(all), NColumns(obs, pred).value, NlHeader),
                             |InsGroup.Grouped(all)|) == InsNames.Names(all)
  {
    var run := AuxRun(parNames, tplFile, insFile, obs, pred, delimiter);
    if run.outcome.Ok? {
      var n := NColumns(obs, pred).value;
      NColumnsBounds(obs, pred);
      MergedCells(Supplied(obs), Supplied(pred), n);
      InsNames.CapturesAreNames(Inds(Supplied(obs)), Inds(Supplied(pred)), n, NlHeader, FieldWd);
    }
  }

  /** A run of write_pest_files that succeeds writes an instruction file
      that captures every observation and prediction name (as cut to 20
      characters), once each, in sorted order. */
  lemma RunCapturesRecords(start: Date, end: Date, parNames: seq<string>, obsFile: Option<DataFile>,
                           obsWeights: WeightSource, predFile: Option<DataFile>, tplFile: string,
                           insFile: string, delimiter: string)
    requires Valid(start) && Valid(end)
    requires obsFile.Some? ==> Ready(obsFile.value, obsWeights)
    requires predFile.Some? ==> Ready(predFile.value, Weight(0))
    ensures var run := PestRun(start, end, parNames, obsFile, obsWeights, predFile, tplFile, insFile, delimiter);
      var obs := Frame(Read(obsFile, obsWeights, start, end));
      var pred := Frame(Read(predFile, Weight(0), start, end));
      var all := Sort(InsFile.Coerce(Inds(Supplied(obs)), FieldWd) + InsFile.Coerce(Inds(Supplied(pred)), FieldWd));
      run.outcome.Ok? ==>
        NColumns(obs, pred).Some? && |run.files| == 2 &&
        run.files[1].text == InsFile.InsText(Inds(Supplied(obs)), Inds(Supplied(pred)), NColumns(obs, pred).value,
                                             NlHeader, FieldWd, delimiter) &&
        InsNames.AllCaptured(InsFile.InsDoc(InsGroup.Grouped(all), NColumns(obs, pred).value, NlHeader),
                             |InsGroup.Grouped(all)|) == InsNames.Names(all)
  {
    var run := PestRun(start, end, parNames, obsFile, obsWeights, predFile, tplFile, insFile, delimiter);
    var obs := Frame(Read(obsFile, obsWeights, start, end));
    var pred := Frame(Read(predFile, Weight(0), start, end));
    if run.outcome.Ok? {
      RunReachesAux(start, end, parNames, obsFile, obsWeights, predFile, tplFile, insFile, delimiter);
      FrameCells(obsFile, obsWeights, start, end);
      FrameCells(predFile, Weight(0), start, end);
      InstructionsCaptureRecords(obs, pred, parNames, tplFile, insFile, delimiter);
    }
  }

  /** A run that succeeds is the run of the template and instruction
      files for the frames read. */
  lemma RunReachesAux(start: Date, end: Date, parNames: seq<string>, obsFile: Option<DataFile>,
                      obsWeights: WeightSource, predFile: Option<DataFile>, tplFile: string,
                      insFile: string, delimiter: string)
    requires Valid(start) && Valid(end)
    requires obsFile.Some? ==> Ready(obsFile.value, obsWeights)
    requires predFile.Some? ==> Ready(predFile.value, Weight(0))
    ensures var run := PestRun(start, end, parNames, obsFile, obsWeights, predFile, tplFile, insFile, delimiter);
      run.outcome.Ok? ==>
        run == AuxRun(parNames, tplFile, insFile, Frame(Read(obsFile, obsWeights, start, end)),
                      Frame(Read(predFile, Weight(0), start, end)), delimiter)
  {
  }

  /** The column count is NaN, and write_ins_file raises in `range(ncols)`
      after the first advance, exactly when there are records and one of
      the frames read is empty. */
  lemma NaNColumnCount(obs: Option<seq<Obs>>, pred: Option<seq<Obs>>,
                       parNames: seq<string>, tplFile: string, insFile: string, delimiter: string)
    ensures var run := AuxRun(parNames, tplFile, insFile, obs, pred, delimiter);
      run.outcome == Err(ColumnCountNaN) <==>
        Supplied(obs) + Supplied(pred) != [] && ((obs.Some? && obs.value == []) || (pred.Some? && pred.value == []))
  {
    NColumnsBounds(obs, pred);
    var a, b := Inds(Supplied(obs)), Inds(Supplied(pred));
    InsFile.CoordsOverlapIff(a, b);
  }
}
