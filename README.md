# cuspy core, modelled in Dafny

cuspy drives the PEST++ parameter-estimation tools for environmental models.
It writes the PEST control, template and instruction files and launches the
PEST++ programs. This project models the two pieces of cuspy that carry its
own logic:

- **Writing PEST files** (`cuspy/input_output.py`):
  - `write_ins_file` merges the observation and prediction coordinates,
    sorts them and groups them by row, then writes the instruction file:
    the `pif @` header, one `l<N>` line directive per row, `!name!`
    captures, `!dum!` fillers and ` @<delimiter>@` separators.
  - `write_tpl_file` and `write_dict` write one fixed-format line per entry.
  - `get_obs_data` runs on a table that is already parsed. It gives each
    record its row index (the date's offset in the simulation period), its
    column index, its name, weight and group, and it drops incomplete
    records.
  - `write_pest_files` is modelled up to the instruction file: the argument
    check, the zero prediction weight and the column count.
- **The analysis drivers** (`cuspy/analyses.py`): `calibration`, `ies`,
  `monte_carlo`, `gsa` and `linear_uncertainty`. The `pyemu.Pst` object is a
  class (`PstModel.Pst`) holding four sections as maps, the observations
  and the parameter count. Each call into pyemu or PEST++ is appended to an
  event log (`PstModel.Log`). A driver is a method on these two objects. A
  specification function (`CalibrationRun`, `IesRun`, …) gives the final
  state, the events in order and the result or the exception. The lemmas
  state the rules:
  - method dispatch and its errors;
  - when regularisation is forced and when the call raises;
  - which option write wins because of statement order;
  - the `rstrip('.pst')` and `rsplit('.', 1)` path derivations.

Files, leaf first: `wrappers.dfy` (Option/Result), `text.dfy` (`str(int)`,
lines, `rstrip`, `rsplit`, `dirname`, `join`), `seqs.dfy`, `dates.dfy`
(calendar days and `strftime('%Y%m%d')`), `ins_order.dfy` (records and the
sort order), `ins_group.dfy` (grouping by row), `ins_file.dfy` (the writer),
`ins_rows.dfy`, `ins_props.dfy` and `ins_names.dfy` (what the file says),
`ins_examples.dfy` (the test inputs), `writers.dfy`, `obs_data.dfy`,
`pest_files.dfy`, `pst_model.dfy` and `analyses.dfy`.

Edge cases of the code that the model keeps:
- **Column 0 of the instruction file.** Membership is tested before
  `k == 0` (input_output.py:381), so a record in column 0 is captured
  (`InsFile.FieldAt`).
- **Dates outside the period.** Row offsets are assigned with
  `obs_data.loc[:, 'row_ind'] = row_inds` (input_output.py:95), and that
  assignment raises when the lengths differ. This happens when a date lies
  outside the period or two rows share a date (`ObsData.RowIndsOkIff`).
- **Unsorted dates.** When the dates lie in the period but are not in
  ascending order, row i gets the i-th smallest offset, not the offset of
  its own date. `ObsData.RowIndsAreOffsets` states the offset rule for
  ascending dates only.
- **An empty merge.** `write_ins_file` on two empty lists raises
  IndexError at `all_inds['x'][0]` (line 363) before opening the file.
- **An empty frame in `write_pest_files`.** If a supplied frame is empty,
  `np.max` of its `col_ind` is NaN and so is `ncols`. `range(ncols)` then
  raises TypeError once the header and the first advance are written
  (`PestFiles.NaNColumnCount`).
- **The posterior covariance path.** `rstrip('.pst')` strips a character
  set, so the default `pest.pst` reads `pe.post.cov`. The model keeps this
  behaviour (`Analyses.PostCovPathExamples`).

## Model

| member | source | states |
|---|---|---|
| `InsOrder.Sort` | cuspy/input_output.py:350-351 | the merged records come out in (x, y, obsname) order as a permutation of the input |
| `InsOrder.SortedUnique` | cuspy/input_output.py:351 | the order is total, so any two sorted permutations of the records are equal: the sort result does not depend on the algorithm |
| `InsFile.Truncate` | cuspy/input_output.py:336-341 | a name stored in a `<U{field_wd}` field keeps its first min(len, field_wd) characters |
| `InsFile.CoordsOverlapIff` | cuspy/input_output.py:343-347 | the overlap check fires exactly when some observation and some prediction share both x and y; names and repeats within one list play no part |
| `InsFile.CoordsOverlapCoerce` | cuspy/input_output.py:336-347 | truncating names does not change the outcome of the overlap check |
| `InsFile.WriteInsFile` | cuspy/input_output.py:335-391 | raises ValueError exactly on overlapping coordinates, IndexError exactly on an empty merge without overlap, both before any text is written; otherwise returns the rendered instruction file of the sorted, grouped records |
| `InsFile.WriteLines` | cuspy/input_output.py:372-391 | the writing loop produces the header followed by one line per row group |
| `InsFile.WriteColumns` | cuspy/input_output.py:380-390 | the column loop appends, per column, the capture, nothing or `!dum!`, and a separator unless the column is the last |
| `InsGroup.GroupByRow` | cuspy/input_output.py:361-370 | the `ln`/`x_old` loop builds exactly the grouping `Grouped(all)` |
| `InsGroup.GroupedShape` | cuspy/input_output.py:361-370 | every group the loop opens receives at least one record, and two consecutive groups never share a row |
| `InsGroup.FlattenGrouped` | cuspy/input_output.py:356-370 | grouping loses, adds and reorders no record |
| `InsGroup.GroupRowsAreUnique` | cuspy/input_output.py:354-370 | on sorted input the group rows are strictly increasing and are exactly the distinct x values (`np.unique`), so `ln` stays below `n_lines` |
| `InsRows.AdvancesReachRows` | cuspy/input_output.py:376-379 | the advances of the first i+1 directives add up to row_i + nl_header + 1 |
| `InsRows.LaterAdvancesPositive` | cuspy/input_output.py:351-379 | every directive after the first moves forward |
| `InsRows.OneLinePerRow` | cuspy/input_output.py:350-379 | the file has exactly one directive per distinct row index of the merged input, in ascending row order |
| `InsProps.InsTextLines` | cuspy/input_output.py:373-391 | read back line by line, the file is `pif @` followed by one line per directive, when no name or delimiter holds a newline |
| `InsProps.ColsTextJoin` | cuspy/input_output.py:380-389 | a line's columns are the tokens joined by ` @<delimiter>@`: ncols-1 separators and none after the last column |
| `InsNames.CapturedNameIsLeast` | cuspy/input_output.py:380-383 | a column holding records is captured, with the first name in sorted order (the least), even for column 0 |
| `InsNames.CapturesAreNames` | cuspy/input_output.py:336-391 | when no two records share a cell and every column lies in [0, ncols), the captures are every (truncated) name exactly once, in sorted row-major order |
| `InsExamples.TestInputAdvances` | tests/test_0_input.py:33-35 | the test's rows 0, 1, 3, 5, 6 with one header line give `l2 l1 l2 l2 l1`, each line skipping column 0 and capturing column 1 |
| `InsExamples.TestOverlapRaises` | tests/test_0_input.py:42-49 | the third call of the test shares (0, 2) between observations and predictions, so the overlap check fires |
| `Writers.WriteTplFile` | cuspy/input_output.py:653-657 | the loop writes `ptf #` and then one line per parameter, in input order |
| `Writers.TplRoundTrip` | cuspy/input_output.py:653-657 | read back, the template has the header and then one line per parameter naming that parameter, and nothing else |
| `Writers.WriteDict` | cuspy/input_output.py:259-261 | the loop writes one `key value` line per entry, in iteration order |
| `Writers.DictRoundTrip` | cuspy/input_output.py:259-261 | read back as two columns, the file gives the entries in order when keys hold no blank and nothing holds a newline |
| `Dates.DateRange` | cuspy/input_output.py:93 | `pd.date_range(start, end)` is every day from start to end, day k at day number start + k, empty when end precedes start |
| `Dates.StampReadBack` | cuspy/input_output.py:105-107 | `strftime('%Y%m%d')` gives eight digits from which year, month and day read back |
| `Dates.StampInjective` | cuspy/input_output.py:105-107 | different dates give different stamps |
| `ObsData.Hits` | cuspy/input_output.py:94 | `np.where(np.in1d(datevec, dates))` lists, ascending, exactly the offsets of the period's days that occur among the dates |
| `ObsData.RowIndsOkIff` | cuspy/input_output.py:92-95 | the row-index assignment succeeds exactly when no two rows share a date and every date lies in the period |
| `ObsData.RowIndsAreOffsets` | cuspy/input_output.py:92-95 | for ascending dates in the period, each row's index is its date's offset from start_date |
| `ObsData.TailPositionsOfDistinct` | cuspy/input_output.py:99-101 | with distinct column names the replacement values are 1, 2, …: variable colnames[j] gets col_ind j |
| `ObsData.CellAt` | cuspy/input_output.py:98-101 | melt record v*n + i is value column v of row i, with that row's date and row index, variable colnames[v+1] and col_ind v+1 |
| `ObsData.GetObsDataErrors` | cuspy/input_output.py:92-140 | the call fails on the row assignment exactly when rows are not distinct dates in the period, otherwise on a names/weights/groups file without the date column, otherwise succeeds |
| `ObsData.ObsRecordAt` | cuspy/input_output.py:98-135 | every returned record is one cell of the table, with that cell's row index, col_ind and value, and its name, weight and group taken from the given sources (default name `variable_YYYYMMDD`, prefix + melt position) |
| `ObsData.CellKept` | cuspy/input_output.py:137-138 | a cell survives `dropna` exactly when it has a value and its name, weight and group are present |
| `ObsData.ObsOrdered` | cuspy/input_output.py:98-138 | the returned records keep melt order: variable by variable, row by row |
| `ObsData.PrefixNamesUnique` | cuspy/input_output.py:113-115 | names made from a prefix and the melt position never repeat |
| `ObsData.DefaultNamesUnique` | cuspy/input_output.py:104-107 | default names `variable_YYYYMMDD` never repeat in a successful call |
| `ObsData.ObsCoordsUnique` | cuspy/input_output.py:92-101 | no two returned records share a (row_ind, col_ind) cell, and every col_ind is at least 1 |
| `ObsData.BroadcastSources` | cuspy/input_output.py:123-135 | a scalar weight and a literal group reach every record; the default group is the variable name |
| `PestFiles.NColumnsBounds` | cuspy/input_output.py:564-577 | ncols is NaN exactly when a frame that was read is empty; otherwise it is at least 1, above every col_ind, and equals 1 or the largest col_ind plus 1 |
| `PestFiles.WritePestFiles` | cuspy/input_output.py:537-580 | the method writes exactly the files of `PestRun` and ends as it says |
| `PestFiles.WriteInstructions` | cuspy/input_output.py:579-580 | the instruction file is the text of write_ins_file with field_wd 20 and one header line, or the exception it raises |
| `PestFiles.ArgumentCheck` | cuspy/input_output.py:537-538 | ValueError exactly when both obs_file and pred_file are None, with nothing written |
| `PestFiles.ReadRunShape` | cuspy/input_output.py:539-580 | nothing is written when a read fails; otherwise the template comes first and the instruction file second |
| `PestFiles.MergedRecords` | cuspy/input_output.py:550-555 | the records handed on are the observations followed by the predictions |
| `PestFiles.PredictionsWeightZero` | cuspy/input_output.py:545-555 | in a successful run every prediction has weight 0 |
| `PestFiles.FrameCells` | cuspy/input_output.py:539-549 | every frame read has its records in distinct cells of value columns |
| `PestFiles.RunCapturesRecords` | cuspy/input_output.py:564-580 | a successful run writes an instruction file that captures every observation and prediction name (cut to 20 characters), once each, in sorted order |
| `PestFiles.NaNColumnCount` | cuspy/input_output.py:564-580 | the run raises in `range(ncols)` exactly when there are records and one frame that was read is empty |
| `PstModel.OverlaidAt` | cuspy/analyses.py:109-124 | after an overlay, a key assigned by the entries holds its last assigned value, and every other key is unchanged |
| `PstModel.OverlayLoop` | cuspy/analyses.py:117-118 | the `for k in d: __setattr__` loop computes the overlay |
| `PstModel.Log.Record` | cuspy/analyses.py:127-131 | an event is appended to the log, after the earlier ones |
| `PstModel.Pst.SetOption` | cuspy/analyses.py:89 | item assignment changes that one option and nothing else |
| `PstModel.Pst.PopOption` | cuspy/analyses.py:86-87 | removes the key if present and changes nothing else |
| `PstModel.Pst.UpdateOptions` | cuspy/analyses.py:200 | `update` overlays the options and changes nothing else |
| `PstModel.Pst.SetControl` | cuspy/analyses.py:112 | assigns one control-data key and changes nothing else |
| `PstModel.Pst.OverlayControl` | cuspy/analyses.py:115-118 | overlays the control data and changes nothing else |
| `PstModel.Pst.OverlaySvd` | cuspy/analyses.py:121-124 | overlays the SVD data and changes nothing else |
| `PstModel.Pst.OverlayReg` | cuspy/analyses.py:107-110 | overlays the regularisation data and changes nothing else |
| `PstModel.Configure` | cuspy/analyses.py:180-195 | the control, SVD and regularisation overlays in that order, leaving options and observations alone |
| `PstModel.ZeroWeightNamesAre` | cuspy/analyses.py:472-473 | `zero_weight_obs_names` lists exactly the names of observations with weight 0 |
| `Analyses.Calibration` | cuspy/analyses.py:79-137 | the driver leaves the state, the events and the result that `CalibrationRun` gives |
| `Analyses.CalibrationAfterMethod` | cuspy/analyses.py:97-135 | the part after the method is set matches `CalibrationSteps` |
| `Analyses.UnknownMethodRejected` | cuspy/analyses.py:84-95 | ValueError exactly for a method other than "glm" and "de", with nothing changed or called |
| `Analyses.RegularisationWarning` | cuspy/analyses.py:98-103 | Warning exactly when nobs < npar and reg is False, raised before any call |
| `Analyses.GlmOptions` | cuspy/analyses.py:84-87 | "glm" removes global_opt and changes no other option; the extra options are ignored |
| `Analyses.DeOptions` | cuspy/analyses.py:88-93 | "de" sets global_opt to "de" and then the extra options win, the last assignment of each key prevailing |
| `Analyses.CalibrationRegularisation` | cuspy/analyses.py:98-118 | the Tikhonov step and the regularisation overlay happen exactly when regularisation is used; otherwise pestmode is set to "estimation" before the control overlay |
| `Analyses.PestmodeRule` | cuspy/analyses.py:111-118 | without regularisation, a caller-supplied pestmode wins over "estimation" |
| `Analyses.CalibrationWritesThenLaunches` | cuspy/analyses.py:120-135 | after the SVD overlay the final file is written, pestpp-glm launched, the file reloaded and parrep applied; observations and npar never change |
| `Analyses.Ies` | cuspy/analyses.py:177-210 | the driver leaves the state and events that `IesRun` gives |
| `Analyses.IesOptions` | cuspy/analyses.py:197-210 | ies_num_reals is always n_reals, even over the extra options; parcov is set only when given; then write and launch pestpp-ies |
| `Analyses.Gsa` | cuspy/analyses.py:380-411 | the driver leaves the state and events that `GsaRun` gives |
| `Analyses.GsaMethodOverridden` | cuspy/analyses.py:400-411 | gsa_method is the given method unless the extra options set it; then write and launch pestpp-sen |
| `Analyses.MonteCarlo` | cuspy/analyses.py:261-339 | the driver leaves the state, events and result that `MonteCarloRun` gives |
| `Analyses.Sampling` | cuspy/analyses.py:292-339 | the part after the write matches `SamplingRun` |
| `Analyses.DrawAndSweep` | cuspy/analyses.py:302-328 | from the covariance read to the launch of pestpp-swp; false, after the covariance read, for an unknown distribution |
| `Analyses.SweepOutput` | cuspy/analyses.py:331-337 | the sweep output is the sweep_output_csv_file option and its folder, or `sweep_out.csv` beside csv_in |
| `Analyses.MonteCarloWritesFirst` | cuspy/analyses.py:284-300 | the file is written first, with sweep_parameter_csv_file = csv_in over the extra options; KeyError for an unknown dist_type exactly, and only after the write |
| `Analyses.PosteriorIsGaussian` | cuspy/analyses.py:295-307 | "post" reads the `.post.cov` file derived by rstrip and draws Gaussian whatever distribution was asked for |
| `Analyses.UnknownDistributionRejected` | cuspy/analyses.py:303-319 | KeyError for an unknown distribution exactly under the prior, after the write and the covariance read |
| `Analyses.DrawsByDistribution` | cuspy/analyses.py:303-319 | the four distributions each draw; bounds are enforced by a separate `enforce` call after the Gaussian draw and by `enforce_bounds=True` inside the mixed draw, and not for the uniform or triangular draws |
| `Analyses.MonteCarloSweep` | cuspy/analyses.py:320-339 | a successful run adds the base only when asked, saves the draws to csv_in, launches pestpp-swp and processes the sweep output only when asked |
| `Analyses.SweepFilesDefault` | cuspy/analyses.py:335-337 | without the option, an input file in the working folder gives `sweep_out.csv` there |
| `Analyses.PostCovPathExamples` | cuspy/analyses.py:296 | rstrip removes a character set: `test1.pst` gives `test1.post.cov`, `pest.pst` gives `pe.post.cov` |
| `Analyses.JcoPathShape` | cuspy/analyses.py:469 | the Jacobian path replaces the text after the last '.' by `jcb`, or appends `.jcb` when there is no '.' |
| `Analyses.JcoPathExample` | cuspy/analyses.py:469 | `pest.pst` gives `pest.jcb` |
| `Analyses.LinearUncertainty` | cuspy/analyses.py:454-486 | the driver leaves the state, events and result that `LinearUncertaintyRun` gives |
| `Analyses.LinearRunsFirst` | cuspy/analyses.py:456-484 | the noptmax=0 write and pestpp-glm run, then the noptmax=-1 write of the reweighted file and a second run, all before KeyError for an unknown analysis |
| `Analyses.DefaultPredictions` | cuspy/analyses.py:469-473 | without predictions, they are the zero-weight observations of the reweighted file; the Jacobian is `JcoPath(pst_file1)` |
| `Analyses.GivenPredictions` | cuspy/analyses.py:472-482 | explicit predictions are used as given, with the analysis kind named |

## Left out

- `process_sweep_out`: percentiles, min/max and binned means over float
  columns, plus CSV reading and writing. Floating-point numerics and I/O.
  `monte_carlo` records the call as a `ProcessSweep` event.
- `write_par_data_file` and `write_dummy_pred_file`: DataFrame construction
  and `to_csv` only.
- `cuspy/functions.py` (`launch_pestpp`): process and worker orchestration.
  A launch is an opaque `Launch(folder, exe, pst_file, parallel)` event.
  `linear_uncertainty` relies on the default `parallel=False`.
- pyemu calls are opaque events. This covers `Pst.write` (recorded with the
  state written), the reload with `pyemu.Pst`, `parrep`,
  `zero_order_tikhonov`, `adjust_weights_discrepancy`, the covariance
  readers, the ensemble draws, `enforce`, `add_base` and `to_csv`. Their
  effect on the control file is not modelled. `zero_order_tikhonov` changes
  prior information in the real file.
- `Analyses.DrawsByDistribution`: a `Draw` event records the distribution,
  the number of realisations and whether the draw enforces bounds itself.
  It does not record the covariance handed to the Gaussian and mixed draws,
  `how_dict`, or `by_groups=False`.
- `Analyses.LinearUncertainty`: the control file as reloaded after the
  first run and reweighted is a parameter (`adjusted`), since PEST++ and
  pyemu produce it. `calibration` returns the reloaded file after `parrep`;
  the model records the `Load` and `Parrep` events but not the reloaded
  content.
- `write_pest_files` after the instruction file: the control file object
  (`generic_pst`, parameter and observation data, model command, file
  names, the option overlays, `sanity_checks`, `write`). pyemu object
  construction.
- `get_obs_data` file parsing: `read_csv` and `parse_dates` are replaced
  by an already-parsed table. Measurement values and weights are integers
  standing for floats. A names, weights or groups file whose date column
  is not the first column is not modelled.
- `ObsData.GetObsData`: `isinstance(weights, str)` and `os.path.isfile`
  are decided by the caller, through the `WeightSource`, `NameSource` and
  `GroupSource` choices.
- `Writers.WriteDict`: `str(v)` is supplied by the caller as a string, so
  values of any type are not modelled.
- Integer widths: numpy `int` fields of the structured array are 64-bit;
  the model uses unbounded integers, so overflow is not captured.
- String order: numpy compares unicode fields by code point, with a
  proper prefix first. `InsOrder.StrLe` models this; locale collation is
  not modelled.
