/** The analysis drivers of `cuspy/analyses.py`: each loads a PEST control
    file, changes its sections and PEST++ options, writes it under a new
    name and launches a PEST++ program on it. A driver is modelled as a
    method on the loaded control file and an event log; its effect is the
    specification function of the same name ending in `Run`, which gives
    the final control file, the calls made in order, and the result or the
    error raised. */
module Analyses {
  import opened Wrappers
  import opened Text
  import opened PstModel

  /** The exceptions the drivers raise themselves. */
  datatype DriverError =
    | MethodNotRecognised     // calibration: ValueError
    | RegularisationNeeded    // calibration: Warning, nobs < npar without reg
    | UnknownDistType         // monte_carlo: KeyError
    | UnknownDistribution     // monte_carlo: KeyError
    | SweepPathNotText        // monte_carlo: TypeError from os.path.dirname
    | UnknownAnalysis         // linear_uncertainty: KeyError

  /** What a driver leaves behind. */
  datatype Outcome<T> = Outcome(state: PstState, events: seq<Event>, result: Result<T, DriverError>)

  // ---------------------------------------------------------------------
  // calibration

  /** The PEST++ options once the calibration method is set, or `None`
      for a method other than "glm" and "de". The extra options are only
      applied for "de". */
  function MethodOptions(options: Section, calMethod: string, pestppOpts: Entries): Option<Section>
  {
    if calMethod == "glm" then Some(options - {"global_opt"})
    else if calMethod == "de" then Some(Overlaid(options["global_opt" := Text("de")], pestppOpts))
    else None
  }

  /** Regularisation is used when asked for or when there are fewer
      observations than parameters. */
  predicate UsesRegularisation(s: PstState, reg: bool) { reg || Nobs(s) < s.npar }

  /** The state after the regularisation step, before the control and SVD
      overlays. */
  function RegularisationStep(s: PstState, reg: bool, regData: Entries): PstState
  {
    if UsesRegularisation(s, reg) then s.(regData := Overlaid(s.regData, regData))
    else s.(controlData := s.controlData["pestmode" := Text("estimation")])
  }

  function CalibrationRun(s: PstState, calMethod: string, reg: bool, pstFile1: string, pestppFolder: string,
                          controlData: Entries, svdData: Entries, regData: Entries, pestppOpts: Entries,
                          parallel: bool): Outcome<()>
  {
    match MethodOptions(s.pestppOptions, calMethod, pestppOpts)
    case None => Outcome(s, [], Err(MethodNotRecognised))
    case Some(options) =>
      CalibrationSteps(s.(pestppOptions := options), reg, pstFile1, pestppFolder, controlData, svdData, regData,
                       parallel)
  }

  /** Everything after the method is set. */
  function CalibrationSteps(s1: PstState, reg: bool, pstFile1: string, pestppFolder: string,
                            controlData: Entries, svdData: Entries, regData: Entries, parallel: bool): Outcome<()>
  {
    if Nobs(s1) < s1.npar && !reg then Outcome(s1, [], Err(RegularisationNeeded))
    else
      var s2 := RegularisationStep(s1, reg, regData);
      var s3 := s2.(controlData := Overlaid(s2.controlData, controlData)).(svdData := Overlaid(s2.svdData, svdData));
      var tikhonov := if UsesRegularisation(s1, reg) then [Tikhonov] else [];
      Outcome(s3, tikhonov + [Write(pstFile1, s3), Launch(pestppFolder, "pestpp-glm", pstFile1, parallel),
                              Load(pstFile1), Parrep], Ok(()))
  }

  method Calibration(pst: Pst, log: Log, calMethod: string, reg: bool, pstFile1: string, pestppFolder: string,
                     controlData: Entries, svdData: Entries, regData: Entries, pestppOpts: Entries, parallel: bool)
    returns (r: Result<(), DriverError>)
    modifies pst, log
    ensures var o := CalibrationRun(old(pst.State()), calMethod, reg, pstFile1, pestppFolder,
                                    controlData, svdData, regData, pestppOpts, parallel);
      pst.State() == o.state && log.events == old(log.events) + o.events && r == o.result
  {
    if calMethod == "glm" {
      pst.PopOption("global_opt");
    } else if calMethod == "de" {
      pst.SetOption("global_opt", Text("de"));
      pst.UpdateOptions(pestppOpts);
    } else {
      return Err(MethodNotRecognised);
    }
    r := CalibrationAfterMethod(pst, log, reg, pstFile1, pestppFolder, controlData, svdData, regData, parallel);
  }

  /** The part of `calibration` after the method is set. */
  method CalibrationAfterMethod(pst: Pst, log: Log, reg: bool, pstFile1: string, pestppFolder: string,
                                controlData: Entries, svdData: Entries, regData: Entries, parallel: bool)
    returns (r: Result<(), DriverError>)
    modifies pst, log
    ensures var o := CalibrationSteps(old(pst.State()), reg, pstFile1, pestppFolder, controlData, svdData, regData,
                                      parallel);
      pst.State() == o.state && log.events == old(log.events) + o.events && r == o.result
  {
    var useReg := reg;
    if |pst.observations| < pst.npar {
      if !useReg {
        return Err(RegularisationNeeded);
      }
      useReg := true;
    }
    if useReg {
      log.Record(Tikhonov);
      pst.OverlayReg(regData);
    } else {
      pst.SetControl("pestmode", Text("estimation"));
    }
    pst.OverlayControl(controlData);
    pst.OverlaySvd(svdData);
    log.Record(Write(pstFile1, pst.State()));
    log.Record(Launch(pestppFolder, "pestpp-glm", pstFile1, parallel));
    log.Record(Load(pstFile1));
    log.Record(Parrep);
    return Ok(());
  }

  /** A method other than "glm" or "de" is refused before anything is
      changed or called. */
  lemma UnknownMethodRejected(s: PstState, calMethod: string, reg: bool, pstFile1: string, pestppFolder: string,
                              controlData: Entries, svdData: Entries, regData: Entries, pestppOpts: Entries,
                              parallel: bool)
    ensures var o := CalibrationRun(s, calMethod, reg, pstFile1, pestppFolder, controlData, svdData, regData,
                                    pestppOpts, parallel);
      o.result == Err(MethodNotRecognised) <==> calMethod != "glm" && calMethod != "de"
    ensures var o := CalibrationRun(s, calMethod, reg, pstFile1, pestppFolder, controlData, svdData, regData,
                                    pestppOpts, parallel);
      o.result == Err(MethodNotRecognised) ==> o.state == s && o.events == []
  {
  }

  /** The regularisation warning is raised exactly when there are fewer
      observations than parameters and regularisation was not asked for,
      and then no call has been made. */
  lemma RegularisationWarning(s: PstState, calMethod: string, reg: bool, pstFile1: string, pestppFolder: string,
                              controlData: Entries, svdData: Entries, regData: Entries, pestppOpts: Entries,
                              parallel: bool)
    requires calMethod == "glm" || calMethod == "de"
    ensures var o := CalibrationRun(s, calMethod, reg, pstFile1, pestppFolder, controlData, svdData, regData,
                                    pestppOpts, parallel);
      (o.result == Err(RegularisationNeeded) <==> Nobs(s) < s.npar && !reg) &&
      (o.result.Err? ==> o.events == [] && o.result == Err(RegularisationNeeded))
  {
  }

  /** With "glm", "global_opt" is removed and nothing else in the options
      changes: the extra PEST++ options are not applied. */
  lemma GlmOptions(s: PstState, reg: bool, pstFile1: string, pestppFolder: string,
                   controlData: Entries, svdData: Entries, regData: Entries, pestppOpts: Entries, parallel: bool)
    ensures var o := CalibrationRun(s, "glm", reg, pstFile1, pestppFolder, controlData, svdData, regData,
                                    pestppOpts, parallel);
      "global_opt" !in o.state.pestppOptions &&
      forall k :: k != "global_opt" ==>
        (k in o.state.pestppOptions <==> k in s.pestppOptions) &&
        (k in s.pestppOptions ==> o.state.pestppOptions[k] == s.pestppOptions[k])
  {
  }

  /** With "de", "global_opt" is "de" unless the extra options set it, and
      the extra options win over the file's own. */
  lemma DeOptions(s: PstState, reg: bool, pstFile1: string, pestppFolder: string,
                  controlData: Entries, svdData: Entries, regData: Entries, pestppOpts: Entries, parallel: bool,
                  key: string)
    ensures var o := CalibrationRun(s, "de", reg, pstFile1, pestppFolder, controlData, svdData, regData,
                                    pestppOpts, parallel).state.pestppOptions;
      var last := LastValue(pestppOpts, key);
      (last.Some? ==> key in o && o[key] == last.value) &&
      (last.None? && key == "global_opt" ==> key in o && o[key] == Text("de")) &&
      (last.None? && key != "global_opt" ==>
         (key in o <==> key in s.pestppOptions) && (key in o ==> o[key] == s.pestppOptions[key]))
  {
    OverlaidAt(s.pestppOptions["global_opt" := Text("de")], pestppOpts, key);
  }

  /** In a successful calibration the Tikhonov step is taken exactly when regularisation is used, the regularisation data
      are applied only then, and otherwise "pestmode" is "estimation"
      unless the control data set it. */
  lemma CalibrationRegularisation(s: PstState, calMethod: string, reg: bool, pstFile1: string, pestppFolder: string,
                                  controlData: Entries, svdData: Entries, regData: Entries, pestppOpts: Entries,
                                  parallel: bool)
    ensures var o := CalibrationRun(s, calMethod, reg, pstFile1, pestppFolder, controlData, svdData, regData,
                                    pestppOpts, parallel);
      o.result.Ok? ==>
        (Tikhonov in o.events <==> UsesRegularisation(s, reg)) &&
        (UsesRegularisation(s, reg) ==>
           o.state.regData == Overlaid(s.regData, regData) &&
           o.state.controlData == Overlaid(s.controlData, controlData)) &&
        (!UsesRegularisation(s, reg) ==>
           o.state.regData == s.regData &&
           o.state.controlData == Overlaid(s.controlData["pestmode" := Text("estimation")], controlData))
  {
  }

  /** Without regularisation the caller's "pestmode" wins over "estimation". */
  lemma PestmodeRule(s: PstState, calMethod: string, pstFile1: string, pestppFolder: string,
                     controlData: Entries, svdData: Entries, regData: Entries, pestppOpts: Entries, parallel: bool)
    requires !UsesRegularisation(s, false)
    ensures var o := CalibrationRun(s, calMethod, false, pstFile1, pestppFolder, controlData, svdData, regData,
                                    pestppOpts, parallel);
      o.result.Ok? ==>
        "pestmode" in o.state.controlData &&
        o.state.controlData["pestmode"] ==
          (if LastValue(controlData, "pestmode").Some? then LastValue(controlData, "pestmode").value
           else Text("estimation"))
  {
    OverlaidAt(s.controlData["pestmode" := Text("estimation")], controlData, "pestmode");
  }

  /** A successful calibration writes the final control file and then
      launches pestpp-glm on it, reloads it and replaces the parameters;
      the observations and parameter count are never changed. */
  lemma CalibrationWritesThenLaunches(s: PstState, calMethod: string, reg: bool, pstFile1: string,
                                      pestppFolder: string, controlData: Entries, svdData: Entries,
                                      regData: Entries, pestppOpts: Entries, parallel: bool)
    ensures var o := CalibrationRun(s, calMethod, reg, pstFile1, pestppFolder, controlData, svdData, regData,
                                    pestppOpts, parallel);
      o.state.observations == s.observations && o.state.npar == s.npar &&
      (o.result.Ok? ==>
         |o.events| >= 4 &&
         o.events[|o.events| - 4..] == [Write(pstFile1, o.state), Launch(pestppFolder, "pestpp-glm", pstFile1, parallel),
                                        Load(pstFile1), Parrep] &&
         o.state.svdData == Overlaid(s.svdData, svdData))
  {
    var m := MethodOptions(s.pestppOptions, calMethod, pestppOpts);
    if m.Some? {
      StepsWriteThenLaunch(s.(pestppOptions := m.value), reg, pstFile1, pestppFolder, controlData, svdData,
                           regData, parallel);
    }
  }

  lemma StepsWriteThenLaunch(s1: PstState, reg: bool, pstFile1: string, pestppFolder: string,
                             controlData: Entries, svdData: Entries, regData: Entries, parallel: bool)
    ensures var o := CalibrationSteps(s1, reg, pstFile1, pestppFolder, controlData, svdData, regData, parallel);
      o.state.observations == s1.observations && o.state.npar == s1.npar &&
      (o.result.Ok? ==>
         |o.events| >= 4 &&
         o.events[|o.events| - 4..] == [Write(pstFile1, o.state), Launch(pestppFolder, "pestpp-glm", pstFile1, parallel),
                                        Load(pstFile1), Parrep] &&
         o.state.svdData == Overlaid(s1.svdData, svdData))
  {
    var o := CalibrationSteps(s1, reg, pstFile1, pestppFolder, controlData, svdData, regData, parallel);
    if o.result.Ok? {
      var tail := [Write(pstFile1, o.state), Launch(pestppFolder, "pestpp-glm", pstFile1, parallel),
                   Load(pstFile1), Parrep];
      var tikhonov := if UsesRegularisation(s1, reg) then [Tikhonov] else [];
      assert o.events == tikhonov + tail;
      assert (tikhonov + tail)[|tikhonov|..] == tail;
    }
  }

  // ---------------------------------------------------------------------
  // ies

  function IesRun(s: PstState, pstFile1: string, pestppFolder: string, nReals: int, parcov: Option<string>,
                  controlData: Entries, svdData: Entries, regData: Entries, pestppOpts: Entries,
                  parallel: bool): Outcome<()>
  {
    var s1 := Configured(s, controlData, svdData, regData);
    var options := Overlaid(s1.pestppOptions, pestppOpts)["ies_num_reals" := Number(nReals)];
    var s2 := s1.(pestppOptions := if parcov.Some? then options["parcov" := Text(parcov.value)] else options);
    Outcome(s2, [Write(pstFile1, s2), Launch(pestppFolder, "pestpp-ies", pstFile1, parallel)], Ok(()))
  }

  method Ies(pst: Pst, log: Log, pstFile1: string, pestppFolder: string, nReals: int, parcov: Option<string>,
             controlData: Entries, svdData: Entries, regData: Entries, pestppOpts: Entries, parallel: bool)
    modifies pst, log
    ensures var o := IesRun(old(pst.State()), pstFile1, pestppFolder, nReals, parcov,
                            controlData, svdData, regData, pestppOpts, parallel);
      pst.State() == o.state && log.events == old(log.events) + o.events
  {
    Configure(pst, controlData, svdData, regData);
    pst.UpdateOptions(pestppOpts);
    pst.SetOption("ies_num_reals", Number(nReals));
    if parcov.Some? {
      pst.SetOption("parcov", Text(parcov.value));
    }
    log.Record(Write(pstFile1, pst.State()));
    log.Record(Launch(pestppFolder, "pestpp-ies", pstFile1, parallel));
  }

  /** The ensemble size is always the one given, even when the extra
      options set "ies_num_reals"; "parcov" is the one given when there is
      one, and otherwise as the extra options or the file leave it. */
  lemma IesOptions(s: PstState, pstFile1: string, pestppFolder: string, nReals: int, parcov: Option<string>,
                   controlData: Entries, svdData: Entries, regData: Entries, pestppOpts: Entries, parallel: bool)
    ensures var o := IesRun(s, pstFile1, pestppFolder, nReals, parcov, controlData, svdData, regData,
                            pestppOpts, parallel);
      var opts := o.state.pestppOptions;
      "ies_num_reals" in opts && opts["ies_num_reals"] == Number(nReals) &&
      (parcov.Some? ==> "parcov" in opts && opts["parcov"] == Text(parcov.value)) &&
      (parcov.None? ==> ("parcov" in opts <==> "parcov" in Overlaid(s.pestppOptions, pestppOpts))) &&
      o.state == Configured(s, controlData, svdData, regData).(pestppOptions := opts) &&
      o.events == [Write(pstFile1, o.state), Launch(pestppFolder, "pestpp-ies", pstFile1, parallel)]
  {
  }

  // ---------------------------------------------------------------------
  // gsa

  function GsaRun(s: PstState, gsaMethod: string, pstFile1: string, pestppFolder: string,
                  controlData: Entries, svdData: Entries, regData: Entries, pestppOpts: Entries,
                  parallel: bool): Outcome<()>
  {
    var s1 := Configured(s, controlData, svdData, regData);
    var s2 := s1.(pestppOptions := Overlaid(s1.pestppOptions["gsa_method" := Text(gsaMethod)], pestppOpts));
    Outcome(s2, [Write(pstFile1, s2), Launch(pestppFolder, "pestpp-sen", pstFile1, parallel)], Ok(()))
  }

  method Gsa(pst: Pst, log: Log, gsaMethod: string, pstFile1: string, pestppFolder: string,
             controlData: Entries, svdData: Entries, regData: Entries, pestppOpts: Entries, parallel: bool)
    modifies pst, log
    ensures var o := GsaRun(old(pst.State()), gsaMethod, pstFile1, pestppFolder,
                            controlData, svdData, regData, pestppOpts, parallel);
      pst.State() == o.state && log.events == old(log.events) + o.events
  {
    Configure(pst, controlData, svdData, regData);
    pst.SetOption("gsa_method", Text(gsaMethod));
    pst.UpdateOptions(pestppOpts);
    log.Record(Write(pstFile1, pst.State()));
    log.Record(Launch(pestppFolder, "pestpp-sen", pstFile1, parallel));
  }

  /** "gsa_method" is the method given unless the extra options set it:
      the options are applied after the method. */
  lemma GsaMethodOverridden(s: PstState, gsaMethod: string, pstFile1: string, pestppFolder: string,
                            controlData: Entries, svdData: Entries, regData: Entries, pestppOpts: Entries,
                            parallel: bool)
    ensures var o := GsaRun(s, gsaMethod, pstFile1, pestppFolder, controlData, svdData, regData,
                            pestppOpts, parallel);
      "gsa_method" in o.state.pestppOptions &&
      o.state.pestppOptions["gsa_method"] ==
        (if LastValue(pestppOpts, "gsa_method").Some? then LastValue(pestppOpts, "gsa_method").value
         else Text(gsaMethod)) &&
      o.events == [Write(pstFile1, o.state), Launch(pestppFolder, "pestpp-sen", pstFile1, parallel)]
  {
    OverlaidAt(Configured(s, controlData, svdData, regData).pestppOptions["gsa_method" := Text(gsaMethod)],
               pestppOpts, "gsa_method");
  }

  // ---------------------------------------------------------------------
  // monte_carlo

  /** `pst_file0.rstrip('.pst') + '.post.cov'`: `rstrip` removes any
      trailing '.', 'p', 's' and 't', not the suffix ".pst". */
  function PostCovPath(pstFile0: string): string
  {
    RStrip(pstFile0, {'.', 'p', 's', 't'}) + ".post.cov"
  }

  /** The stem keeps "test1" whole but loses the 'st' of "pest". */
  lemma PostCovPathExamples()
    ensures PostCovPath("test1.pst") == "test1.post.cov"
    ensures PostCovPath("pest.pst") == "pe.post.cov"
  {
    StripTest1();
    StripPest();
  }

  lemma StripTest1()
    ensures RStrip("test1.pst", {'.', 'p', 's', 't'}) == "test1"
  {
    var c := {'.', 'p', 's', 't'};
    assert "test1.pst"[..8] == "test1.ps";
    assert "test1.ps"[..7] == "test1.p";
    assert "test1.p"[..6] == "test1.";
    assert "test1."[..5] == "test1";
    assert RStrip("test1", c) == "test1";
  }

  lemma StripPest()
    ensures RStrip("pest.pst", {'.', 'p', 's', 't'}) == "pe"
  {
    assert "pest.pst"[..7] == "pest.ps";
    assert "pest.ps"[..6] == "pest.p";
    assert "pest.p"[..5] == "pest.";
    assert "pest."[..4] == "pest";
    assert "pest"[..3] == "pes";
    assert "pes"[..2] == "pe";
  }

  /** The draws for a distribution, or `None` for an unknown one.  Only the
      mixed draw is asked to enforce bounds itself (`enforce_bounds=True`);
      the Gaussian draw is followed by a separate `enforce(how='reset')`. */
  function DrawEvents(distribution: string, nSamples: int): Option<seq<Event>>
  {
    if distribution == "gaussian" then Some([Draw(distribution, nSamples, false), Enforce])
    else if distribution == "uniform" || distribution == "triangular" || distribution == "mixed" then
      Some([Draw(distribution, nSamples, distribution == "mixed")])
    else None
  }

  /** The sweep output file and its folder: "sweep_output_csv_file" when
      the options hold it, else "sweep_out.csv" beside the input file. */
  function SweepFiles(options: Section, csvIn: string): Result<(string, string), DriverError>
  {
    if "sweep_output_csv_file" in options then
      match options["sweep_output_csv_file"]
      case Text(p) => Ok((p, Dirname(p)))
      case Number(_) => Err(SweepPathNotText)
    else
      Ok((JoinPath(Dirname(csvIn), "sweep_out.csv"), Dirname(csvIn)))
  }

  /** Everything from the covariance read to the PEST++ launch. */
  function SweepRun(covSource: CovSource, distribution: string, nSamples: int, addBase: bool, csvIn: string,
                    pstFile1: string, pestppFolder: string, parallel: bool): Option<seq<Event>>
  {
    match DrawEvents(distribution, nSamples)
    case None => None
    case Some(draws) =>
      Some([ReadCov(covSource)] + draws + (if addBase then [AddBase] else []) +
           [SaveDraws(csvIn), Launch(pestppFolder, "pestpp-swp", pstFile1, parallel)])
  }

  /** The calls made after the control file is written, and the result:
      the covariance source is checked, then the distribution, then the
      sweep output is processed if asked for. */
  function SamplingRun(options: Section, pstFile0: string, pstFile1: string, distType: string, distribution: string,
                       nSamples: int, csvIn: string, pestppFolder: string, addBase: bool, parallel: bool,
                       processSwpOut: bool): (seq<Event>, Result<(), DriverError>)
  {
    if distType != "prior" && distType != "post" then ([], Err(UnknownDistType))
    else
      var source := if distType == "prior" then FromParameterData else FromAscii(PostCovPath(pstFile0));
      var dist := if distType == "post" then "gaussian" else distribution;
      match SweepRun(source, dist, nSamples, addBase, csvIn, pstFile1, pestppFolder, parallel)
      case None => ([ReadCov(source)], Err(UnknownDistribution))
      case Some(ran) =>
        if !processSwpOut then (ran, Ok(()))
        else match SweepFiles(options, csvIn)
          case Err(e) => (ran, Err(e))
          case Ok(files) => (ran + [ProcessSweep(files.0, files.1)], Ok(()))
  }

  function MonteCarloRun(s: PstState, pstFile0: string, pstFile1: string, distType: string, distribution: string,
                         nSamples: int, csvIn: string, pestppFolder: string, addBase: bool,
                         controlData: Entries, svdData: Entries, regData: Entries, pestppOpts: Entries,
                         parallel: bool, processSwpOut: bool): Outcome<()>
  {
    var s1 := Configured(s, controlData, svdData, regData);
    var s2 := s1.(pestppOptions := Overlaid(s1.pestppOptions, pestppOpts)["sweep_parameter_csv_file" := Text(csvIn)]);
    var rest := SamplingRun(s2.pestppOptions, pstFile0, pstFile1, distType, distribution, nSamples, csvIn,
                            pestppFolder, addBase, parallel, processSwpOut);
    Outcome(s2, [Write(pstFile1, s2)] + rest.0, rest.1)
  }

  method MonteCarlo(pst: Pst, log: Log, pstFile0: string, pstFile1: string, distType: string, distribution: string,
                    nSamples: int, csvIn: string, pestppFolder: string, addBase: bool,
                    controlData: Entries, svdData: Entries, regData: Entries, pestppOpts: Entries,
                    parallel: bool, processSwpOut: bool)
    returns (r: Result<(), DriverError>)
    modifies pst, log
    ensures var o := MonteCarloRun(old(pst.State()), pstFile0, pstFile1, distType, distribution, nSamples, csvIn,
                                   pestppFolder, addBase, controlData, svdData, regData, pestppOpts,
                                   parallel, processSwpOut);
      pst.State() == o.state && log.events == old(log.events) + o.events && r == o.result
  {
    Configure(pst, controlData, svdData, regData);
    pst.UpdateOptions(pestppOpts);
    pst.SetOption("sweep_parameter_csv_file", Text(csvIn));
    log.Record(Write(pstFile1, pst.State()));
    r := Sampling(log, pst.pestppOptions, pstFile0, pstFile1, distType, distribution, nSamples, csvIn,
                  pestppFolder, addBase, parallel, processSwpOut);
  }

  /** The part of `monte_carlo` after the control file is written. */
  method Sampling(log: Log, options: Section, pstFile0: string, pstFile1: string, distType: string,
                  distribution: string, nSamples: int, csvIn: string, pestppFolder: string, addBase: bool,
                  parallel: bool, processSwpOut: bool)
    returns (r: Result<(), DriverError>)
    modifies log
    ensures var rest := SamplingRun(options, pstFile0, pstFile1, distType, distribution, nSamples, csvIn,
                                    pestppFolder, addBase, parallel, processSwpOut);
      log.events == old(log.events) + rest.0 && r == rest.1
  {
    var dist := distribution;
    var source;
    if distType == "prior" {
      source := FromParameterData;
    } else if distType == "post" {
      source := FromAscii(PostCovPath(pstFile0));
      dist := "gaussian";
    } else {
      return Err(UnknownDistType);
    }
    var drawn := DrawAndSweep(log, source, dist, nSamples, addBase, csvIn, pstFile1, pestppFolder, parallel);
    if !drawn {
      return Err(UnknownDistribution);
    }
    if processSwpOut {
      var files := SweepOutput(options, csvIn);
      if files.Err? {
        return Err(files.error);
      }
      log.Record(ProcessSweep(files.value.0, files.value.1));
    }
    return Ok(());
  }

  /** From the covariance read to the launch of pestpp-swp; `false` when
      the distribution is unknown, after the covariance was read. */
  method DrawAndSweep(log: Log, source: CovSource, dist: string, nSamples: int, addBase: bool, csvIn: string,
                      pstFile1: string, pestppFolder: string, parallel: bool)
    returns (drawn: bool)
    modifies log
    ensures var run := SweepRun(source, dist, nSamples, addBase, csvIn, pstFile1, pestppFolder, parallel);
      drawn == run.Some? && log.events == old(log.events) + (if drawn then run.value else [ReadCov(source)])
  {
    log.Record(ReadCov(source));
    ghost var done := old(log.events) + [ReadCov(source)];
    if dist == "gaussian" {
      log.Record(Draw(dist, nSamples, false));
      log.Record(Enforce);
    } else if dist == "uniform" || dist == "triangular" || dist == "mixed" {
      log.Record(Draw(dist, nSamples, dist == "mixed"));
    } else {
      return false;
    }
    done := done + DrawEvents(dist, nSamples).value;
    assert log.events == done;
    if addBase {
      log.Record(AddBase);
    }
    done := done + if addBase then [AddBase] else [];
    assert log.events == done;
    log.Record(SaveDraws(csvIn));
    log.Record(Launch(pestppFolder, "pestpp-swp", pstFile1, parallel));
    SweepRunParts(old(log.events), source, dist, nSamples, addBase, csvIn, pstFile1, pestppFolder, parallel);
    return true;
  }

  lemma SweepRunParts(before: seq<Event>, source: CovSource, dist: string, nSamples: int, addBase: bool,
                      csvIn: string, pstFile1: string, pestppFolder: string, parallel: bool)
    requires DrawEvents(dist, nSamples).Some?
    ensures var run := SweepRun(source, dist, nSamples, addBase, csvIn, pstFile1, pestppFolder, parallel);
      run.Some? &&
      before + run.value ==
        before + [ReadCov(source)] + DrawEvents(dist, nSamples).value + (if addBase then [AddBase] else []) +
        [SaveDraws(csvIn)] + [Launch(pestppFolder, "pestpp-swp", pstFile1, parallel)]
  {
  }

  /** The `try`/`except KeyError` that names the sweep output. */
  method SweepOutput(options: Section, csvIn: string) returns (r: Result<(string, string), DriverError>)
    ensures r == SweepFiles(options, csvIn)
  {
    if "sweep_output_csv_file" in options {
      match options["sweep_output_csv_file"]
      case Text(p) =>
        r := Ok((p, Dirname(p)));
      case Number(_) =>
        r := Err(SweepPathNotText);
    } else {
      var folderOut := Dirname(csvIn);
      r := Ok((JoinPath(folderOut, "sweep_out.csv"), folderOut));
    }
  }

  /** The control file is written first, whatever the distribution
      arguments, with the sweep input file set to `csv_in` even when the
      extra options name another one. */
  lemma MonteCarloWritesFirst(s: PstState, pstFile0: string, pstFile1: string, distType: string,
                              distribution: string, nSamples: int, csvIn: string, pestppFolder: string,
                              addBase: bool, controlData: Entries, svdData: Entries, regData: Entries,
                              pestppOpts: Entries, parallel: bool, processSwpOut: bool)
    ensures var o := MonteCarloRun(s, pstFile0, pstFile1, distType, distribution, nSamples, csvIn, pestppFolder,
                                   addBase, controlData, svdData, regData, pestppOpts, parallel, processSwpOut);
      |o.events| >= 1 && o.events[0] == Write(pstFile1, o.state) &&
      "sweep_parameter_csv_file" in o.state.pestppOptions &&
      o.state.pestppOptions["sweep_parameter_csv_file"] == Text(csvIn) &&
      (o.result == Err(UnknownDistType) <==> distType != "prior" && distType != "post") &&
      (o.result == Err(UnknownDistType) ==> o.events == [Write(pstFile1, o.state)])
  {
  }

  /** With the posterior, the covariance is read from the ".post.cov" file
      next to the original control file and the draw is Gaussian whatever
      distribution was asked for, then the bounds are enforced. */
  lemma PosteriorIsGaussian(s: PstState, pstFile0: string, pstFile1: string, distribution: string,
                            nSamples: int, csvIn: string, pestppFolder: string, addBase: bool,
                            controlData: Entries, svdData: Entries, regData: Entries, pestppOpts: Entries,
                            parallel: bool, processSwpOut: bool)
    ensures var o := MonteCarloRun(s, pstFile0, pstFile1, "post", distribution, nSamples, csvIn, pestppFolder,
                                   addBase, controlData, svdData, regData, pestppOpts, parallel, processSwpOut);
      |o.events| >= 4 &&
      o.events[1] == ReadCov(FromAscii(PostCovPath(pstFile0))) &&
      o.events[2] == Draw("gaussian", nSamples, false) && o.events[3] == Enforce &&
      o.result != Err(UnknownDistribution)
  {
  }

  /** An unknown distribution is refused only after the control file was
      written and the covariance read, and only for the prior. */
  lemma UnknownDistributionRejected(s: PstState, pstFile0: string, pstFile1: string, distType: string,
                                    distribution: string, nSamples: int, csvIn: string, pestppFolder: string,
                                    addBase: bool, controlData: Entries, svdData: Entries, regData: Entries,
                                    pestppOpts: Entries, parallel: bool, processSwpOut: bool)
    ensures var o := MonteCarloRun(s, pstFile0, pstFile1, distType, distribution, nSamples, csvIn, pestppFolder,
                                   addBase, controlData, svdData, regData, pestppOpts, parallel, processSwpOut);
      (o.result == Err(UnknownDistribution) <==>
         distType == "prior" && DrawEvents(distribution, nSamples).None?) &&
      (o.result == Err(UnknownDistribution) ==>
         o.events == [Write(pstFile1, o.state), ReadCov(FromParameterData)])
  {
  }

  /** Which draws each distribution makes, and how bounds are enforced:
      by a separate `enforce` call after the Gaussian draw, inside the
      mixed draw, and not at all for the uniform and triangular draws. */
  lemma DrawsByDistribution(distribution: string, nSamples: int)
    ensures DrawEvents(distribution, nSamples).Some? <==>
      distribution in ["gaussian", "uniform", "triangular", "mixed"]
    ensures DrawEvents(distribution, nSamples).Some? ==>
      var ds := DrawEvents(distribution, nSamples).value;
      ds[0].Draw? && ds[0].distribution == distribution && ds[0].numReals == nSamples &&
      (Enforce in ds <==> distribution == "gaussian") &&
      (ds[0].enforceBounds <==> distribution == "mixed") &&
      ((Enforce in ds || ds[0].enforceBounds) <==> distribution in ["gaussian", "mixed"])
  {
  }

  /** A successful run launches pestpp-swp after saving the draws to
      `csv_in`, and processes the sweep output only when asked, reading
      the output name from the options or defaulting it next to `csv_in`. */
  lemma MonteCarloSweep(s: PstState, pstFile0: string, pstFile1: string, distType: string,
                        distribution: string, nSamples: int, csvIn: string, pestppFolder: string,
                        addBase: bool, controlData: Entries, svdData: Entries, regData: Entries,
                        pestppOpts: Entries, parallel: bool, processSwpOut: bool)
    ensures var o := MonteCarloRun(s, pstFile0, pstFile1, distType, distribution, nSamples, csvIn, pestppFolder,
                                   addBase, controlData, svdData, regData, pestppOpts, parallel, processSwpOut);
      var launch := Launch(pestppFolder, "pestpp-swp", pstFile1, parallel);
      var tail := if processSwpOut then 1 else 0;
      o.result.Ok? ==>
        (AddBase in o.events <==> addBase) &&
        |o.events| >= 2 + tail && o.events[|o.events| - 2 - tail..|o.events| - tail] == [SaveDraws(csvIn), launch] &&
        (processSwpOut ==>
           SweepFiles(o.state.pestppOptions, csvIn).Ok? &&
           o.events[|o.events| - 1] == ProcessSweep(SweepFiles(o.state.pestppOptions, csvIn).value.0,
                                                    SweepFiles(o.state.pestppOptions, csvIn).value.1))
  {
    var o := MonteCarloRun(s, pstFile0, pstFile1, distType, distribution, nSamples, csvIn, pestppFolder,
                           addBase, controlData, svdData, regData, pestppOpts, parallel, processSwpOut);
    var rest := SamplingRun(o.state.pestppOptions, pstFile0, pstFile1, distType, distribution, nSamples, csvIn,
                            pestppFolder, addBase, parallel, processSwpOut);
    SamplingSweep(o.state.pestppOptions, pstFile0, pstFile1, distType, distribution, nSamples, csvIn,
                  pestppFolder, addBase, parallel, processSwpOut);
    assert o.events == [Write(pstFile1, o.state)] + rest.0;
    if o.result.Ok? {
      var tail := if processSwpOut then 1 else 0;
      assert o.events[|o.events| - 2 - tail..|o.events| - tail] == rest.0[|rest.0| - 2 - tail..|rest.0| - tail];
      assert AddBase in o.events <==> AddBase in rest.0;
    }
  }

  /** The same, for the calls after the control file is written. */
  lemma SamplingSweep(options: Section, pstFile0: string, pstFile1: string, distType: string, distribution: string,
                      nSamples: int, csvIn: string, pestppFolder: string, addBase: bool, parallel: bool,
                      processSwpOut: bool)
    ensures var rest := SamplingRun(options, pstFile0, pstFile1, distType, distribution, nSamples, csvIn,
                                    pestppFolder, addBase, parallel, processSwpOut);
      var launch := Launch(pestppFolder, "pestpp-swp", pstFile1, parallel);
      var tail := if processSwpOut then 1 else 0;
      rest.1.Ok? ==>
        (AddBase in rest.0 <==> addBase) &&
        |rest.0| >= 2 + tail && rest.0[|rest.0| - 2 - tail..|rest.0| - tail] == [SaveDraws(csvIn), launch] &&
        (processSwpOut ==>
           SweepFiles(options, csvIn).Ok? &&
           rest.0[|rest.0| - 1] == ProcessSweep(SweepFiles(options, csvIn).value.0, SweepFiles(options, csvIn).value.1))
  {
    var rest := SamplingRun(options, pstFile0, pstFile1, distType, distribution, nSamples, csvIn,
                            pestppFolder, addBase, parallel, processSwpOut);
    if rest.1.Ok? {
      var source := if distType == "prior" then FromParameterData else FromAscii(PostCovPath(pstFile0));
      var dist := if distType == "post" then "gaussian" else distribution;
      var draws := DrawEvents(dist, nSamples).value;
      assert AddBase !in draws;
    }
  }

  /** Without a sweep output option, an input file in the working folder
      gives "sweep_out.csv" in the working folder. */
  lemma SweepFilesDefault(options: Section, csvIn: string)
    requires "sweep_output_csv_file" !in options && '/' !in csvIn
    ensures SweepFiles(options, csvIn) == Ok(("sweep_out.csv", ""))
  {
    assert csvIn[..LastIndexAfter(csvIn, '/')] == [];
    assert "sweep_out.csv"[0] == 's';
    assert [] + "sweep_out.csv" == "sweep_out.csv";
  }

  // ---------------------------------------------------------------------
  // linear_uncertainty

  datatype AnalysisKind = Schur | ErrVar | PriorOnly

  /** The linear analysis object: its kind, Jacobian file and predictions. */
  datatype Analysis = Analysis(kind: AnalysisKind, jco: string, predictions: seq<string>)

  /** `pst_file1.rsplit('.', 1)[0] + '.jcb'`. */
  function JcoPath(pstFile1: string): (r: string)
  {
    RSplitHead(pstFile1, '.') + ".jcb"
  }

  /** The Jacobian file replaces the part after the last '.', or is
      appended when there is none. */
  lemma JcoPathShape(pstFile1: string)
    ensures '.' in pstFile1 ==> exists t :: pstFile1 == RSplitHead(pstFile1, '.') + "." + t && '.' !in t
    ensures '.' !in pstFile1 ==> JcoPath(pstFile1) == pstFile1 + ".jcb"
  {
    if '.' in pstFile1 {
      var t :| pstFile1 == RSplitHead(pstFile1, '.') + ['.'] + t && '.' !in t;
      assert ['.'] == ".";
    }
  }

  lemma JcoPathExample()
    ensures JcoPath("pest.pst") == "pest.jcb"
  {
    assert "pest.pst"[..7] == "pest.ps";
    assert "pest.ps"[..6] == "pest.p";
    assert "pest.p"[..5] == "pest.";
    assert LastIndexAfter("pest.pst", '.') == 5;
    assert "pest.pst"[..4] == "pest";
  }

  function AnalysisKindOf(analysis: string): Option<AnalysisKind>
  {
    if analysis == "schur" then Some(Schur)
    else if analysis == "err_var" then Some(ErrVar)
    else if analysis == "prior" then Some(PriorOnly)
    else None
  }

  /** `adjusted` is the control file as reloaded after the zero-iteration
      run and the weight adjustment; the state of the outcome is that of
      the original control file object. */
  function LinearUncertaintyRun(s: PstState, adjusted: PstState, analysis: string, pstFile1: string,
                                pestppFolder: string, predictions: Option<seq<string>>): Outcome<Analysis>
  {
    var s0 := s.(controlData := s.controlData["noptmax" := Number(0)]);
    var s1 := adjusted.(controlData := adjusted.controlData["noptmax" := Number(-1)]);
    var events := [Write(pstFile1, s0), Launch(pestppFolder, "pestpp-glm", pstFile1, false), Load(pstFile1),
                   AdjustWeights, Write(pstFile1, s1), Launch(pestppFolder, "pestpp-glm", pstFile1, false)];
    var preds := if predictions.Some? then predictions.value else ZeroWeightNames(s1.observations);
    match AnalysisKindOf(analysis)
    case None => Outcome(s0, events, Err(UnknownAnalysis))
    case Some(kind) => Outcome(s0, events, Ok(Analysis(kind, JcoPath(pstFile1), preds)))
  }

  method LinearUncertainty(pst: Pst, log: Log, adjusted: PstState, analysis: string, pstFile1: string,
                           pestppFolder: string, predictions: Option<seq<string>>)
    returns (r: Result<Analysis, DriverError>)
    modifies pst, log
    ensures var o := LinearUncertaintyRun(old(pst.State()), adjusted, analysis, pstFile1, pestppFolder, predictions);
      pst.State() == o.state && log.events == old(log.events) + o.events && r == o.result
  {
    ghost var o := LinearUncertaintyRun(old(pst.State()), adjusted, analysis, pstFile1, pestppFolder, predictions);
    pst.SetControl("noptmax", Number(0));
    log.Record(Write(pstFile1, pst.State()));
    log.Record(Launch(pestppFolder, "pestpp-glm", pstFile1, false));
    log.Record(Load(pstFile1));
    log.Record(AdjustWeights);
    assert pst.State() == o.state && log.events == old(log.events) + o.events[..4];
    var pst1 := new Pst(adjusted);
    pst1.SetControl("noptmax", Number(-1));
    log.Record(Write(pstFile1, pst1.State()));
    log.Record(Launch(pestppFolder, "pestpp-glm", pstFile1, false));
    assert log.events == old(log.events) + o.events;
    var jcoFile := JcoPath(pstFile1);

    var preds := if predictions.Some? then predictions.value else ZeroWeightNames(pst1.observations);
    if analysis == "schur" {
      r := Ok(Analysis(Schur, jcoFile, preds));
    } else if analysis == "err_var" {
      r := Ok(Analysis(ErrVar, jcoFile, preds));
    } else if analysis == "prior" {
      r := Ok(Analysis(PriorOnly, jcoFile, preds));
    } else {
      r := Err(UnknownAnalysis);
    }
  }

  /** Both runs happen before the analysis is chosen: a zero-iteration run
      on the original file, then a Jacobian-only run on the reloaded,
      reweighted file, both written to `pst_file1` and run serially. */
  lemma LinearRunsFirst(s: PstState, adjusted: PstState, analysis: string, pstFile1: string,
                        pestppFolder: string, predictions: Option<seq<string>>)
    ensures var o := LinearUncertaintyRun(s, adjusted, analysis, pstFile1, pestppFolder, predictions);
      |o.events| == 6 &&
      o.events[0].Write? && o.events[0].state.controlData["noptmax"] == Number(0) &&
      o.events[0].state == o.state &&
      o.events[4].Write? && o.events[4].state.controlData["noptmax"] == Number(-1) &&
      o.events[4].state.observations == adjusted.observations &&
      o.events[1] == o.events[5] == Launch(pestppFolder, "pestpp-glm", pstFile1, false) &&
      (o.result.Err? <==> AnalysisKindOf(analysis).None?) &&
      (o.result.Err? ==> o.result.error == UnknownAnalysis)
  {
  }

  /** Without explicit predictions, the predictions are the observations
      of the reweighted file that have weight 0; the Jacobian is the
      `.jcb` file beside `pst_file1`. */
  lemma DefaultPredictions(s: PstState, adjusted: PstState, analysis: string, pstFile1: string,
                           pestppFolder: string)
    ensures var o := LinearUncertaintyRun(s, adjusted, analysis, pstFile1, pestppFolder, None);
      o.result.Ok? ==>
        o.result.value.jco == JcoPath(pstFile1) &&
        forall n :: n in o.result.value.predictions <==>
          exists k :: 0 <= k < |adjusted.observations| &&
            adjusted.observations[k].name == n && adjusted.observations[k].weight == 0
  {
    ZeroWeightNamesAre(adjusted.observations);
  }

  /** Explicit predictions are used as given. */
  lemma GivenPredictions(s: PstState, adjusted: PstState, analysis: string, pstFile1: string,
                         pestppFolder: string, predictions: seq<string>)
    ensures var o := LinearUncertaintyRun(s, adjusted, analysis, pstFile1, pestppFolder, Some(predictions));
      o.result.Ok? ==>
        o.result.value.predictions == predictions && o.result.value.kind == AnalysisKindOf(analysis).value
  {
  }
}
