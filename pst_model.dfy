/** The part of a `pyemu.Pst` control file that the analysis drivers
    read and change: the `pestpp_options` dictionary, the control, SVD and
    regularisation sections as key/value maps, the observations with
    their weights, and the number of parameters. The drivers' calls into
    pyemu and PEST++ are recorded as events. */
module PstModel {
  import opened Wrappers

  /** An option value: a string or a whole number. */
  datatype Setting = Text(text: string) | Number(number: int)

  type Section = map<string, Setting>

  /** A dictionary argument, in its iteration order (a `None` argument is
      replaced by `{}` before use, so it is the empty sequence). */
  type Entries = seq<(string, Setting)>

  datatype Observation = Observation(name: string, weight: int)

  datatype PstState = PstState(pestppOptions: Section, controlData: Section, svdData: Section, regData: Section,
                               observations: seq<Observation>, npar: nat)

  function Nobs(s: PstState): nat { |s.observations| }

  // ---------------------------------------------------------------------
  // Dictionary overlays: `for k in d: section[k] = d[k]`, `options.update(d)`.

  /** The section after the entries are assigned one after the other. */
  function Overlaid(m: Section, entries: Entries): Section
  {
    if entries == [] then m
    else
      var e := entries[|entries| - 1];
      Overlaid(m, entries[..|entries| - 1])[e.0 := e.1]
  }

  /** The value of the last entry for `key`, if any. */
  function LastValue(entries: Entries, key: string): Option<Setting>
  {
    if entries == [] then None
    else if entries[|entries| - 1].0 == key then Some(entries[|entries| - 1].1)
    else LastValue(entries[..|entries| - 1], key)
  }

  /** After an overlay, a key assigned by the entries holds the value of
      its last assignment; every other key is as it was. */
  lemma {:induction false} OverlaidAt(m: Section, entries: Entries, key: string)
    ensures LastValue(entries, key).Some? ==>
      key in Overlaid(m, entries) && Overlaid(m, entries)[key] == LastValue(entries, key).value
    ensures LastValue(entries, key).None? ==>
      (key in Overlaid(m, entries) <==> key in m) &&
      (key in m ==> Overlaid(m, entries)[key] == m[key])
  {
    if entries != [] {
      OverlaidAt(m, entries[..|entries| - 1], key);
    }
  }

  /** The loop that assigns the entries one by one. */
  method OverlayLoop(m: Section, entries: Entries) returns (r: Section)
    ensures r == Overlaid(m, entries)
  {
    r := m;
    for i := 0 to |entries|
      invariant r == Overlaid(m, entries[..i])
    {
      assert entries[..i + 1][..i] == entries[..i];
      r := r[entries[i].0 := entries[i].1];
    }
    assert entries[..|entries|] == entries;
  }

  // ---------------------------------------------------------------------
  // Events.

  /** Where a parameter covariance matrix is read from. */
  datatype CovSource =
    | FromParameterData         // pyemu.Cov.from_parameter_data(pst)
    | FromAscii(path: string)   // pyemu.Matrix.from_ascii(path)

  /** A call into pyemu or PEST++, in the order the driver makes it. */
  datatype Event =
    | Tikhonov                                             // pyemu.helpers.zero_order_tikhonov
    | Write(path: string, state: PstState)                 // Pst.write: the control file as written
    | Launch(folder: string, exe: string, pstFile: string, parallel: bool) // launch_pestpp
    | Load(path: string)                                   // pyemu.Pst(path) after a run
    | Parrep                                               // Pst.parrep
    | AdjustWeights                                        // Pst.adjust_weights_discrepancy
    | ReadCov(source: CovSource)
    | Draw(distribution: string, numReals: int, enforceBounds: bool) // ParameterEnsemble.from_*_draw(s)
    | Enforce                                              // ParameterEnsemble.enforce(how='reset')
    | AddBase                                              // ParameterEnsemble.add_base
    | SaveDraws(path: string)                              // ParameterEnsemble.to_csv
    | ProcessSweep(csvOut: string, folderOut: string)      // process_sweep_out

  /** The record of the calls a driver makes, appended to in order. */
  class Log {
    var events: seq<Event>

    constructor ()
      ensures events == []
    {
      events := [];
    }

    method Record(e: Event)
      modifies this
      ensures events == old(events) + [e]
    {
      events := events + [e];
    }
  }

  // ---------------------------------------------------------------------
  // The control file object.

  class Pst {
    var pestppOptions: Section
    var controlData: Section
    var svdData: Section
    var regData: Section
    var observations: seq<Observation>
    var npar: nat

    function State(): PstState
      reads this
    {
      PstState(pestppOptions, controlData, svdData, regData, observations, npar)
    }

    /** `pyemu.Pst(path)`, with the content read from the file given. */
    constructor (s: PstState)
      ensures State() == s
    {
      pestppOptions := s.pestppOptions;
      controlData := s.controlData;
      svdData := s.svdData;
      regData := s.regData;
      observations := s.observations;
      npar := s.npar;
    }

    /** `pst.pestpp_options[key] = value`. */
    method SetOption(key: string, value: Setting)
      modifies this
      ensures State() == old(State()).(pestppOptions := old(pestppOptions)[key := value])
    {
      pestppOptions := pestppOptions[key := value];
    }

    /** `if key in pst.pestpp_options: pst.pestpp_options.pop(key)`. */
    method PopOption(key: string)
      modifies this
      ensures State() == old(State()).(pestppOptions := old(pestppOptions) - {key})
    {
      if key in pestppOptions {
        pestppOptions := pestppOptions - {key};
      }
    }

    /** `pst.pestpp_options.update(entries)`, or the loop assigning them. */
    method UpdateOptions(entries: Entries)
      modifies this
      ensures State() == old(State()).(pestppOptions := Overlaid(old(pestppOptions), entries))
    {
      pestppOptions := OverlayLoop(pestppOptions, entries);
    }

    /** `pst.control_data.<key> = value`. */
    method SetControl(key: string, value: Setting)
      modifies this
      ensures State() == old(State()).(controlData := old(controlData)[key := value])
    {
      controlData := controlData[key := value];
    }

    /** `for k in entries: pst.control_data.__setattr__(k, entries[k])`. */
    method OverlayControl(entries: Entries)
      modifies this
      ensures State() == old(State()).(controlData := Overlaid(old(controlData), entries))
    {
      controlData := OverlayLoop(controlData, entries);
    }

    /** The same loop on the SVD section. */
    method OverlaySvd(entries: Entries)
      modifies this
      ensures State() == old(State()).(svdData := Overlaid(old(svdData), entries))
    {
      svdData := OverlayLoop(svdData, entries);
    }

    /** The same loop on the regularisation section. */
    method OverlayReg(entries: Entries)
      modifies this
      ensures State() == old(State()).(regData := Overlaid(old(regData), entries))
    {
      regData := OverlayLoop(regData, entries);
    }
  }

  /** The control, SVD and regularisation overlays, in that order. */
  function Configured(s: PstState, controlData: Entries, svdData: Entries, regData: Entries): PstState
  {
    s.(controlData := Overlaid(s.controlData, controlData))
     .(svdData := Overlaid(s.svdData, svdData))
     .(regData := Overlaid(s.regData, regData))
  }

  /** The three overlays leave the options and observations alone. */
  method Configure(pst: Pst, controlData: Entries, svdData: Entries, regData: Entries)
    modifies pst
    ensures pst.State() == Configured(old(pst.State()), controlData, svdData, regData)
  {
    pst.OverlayControl(controlData);
    pst.OverlaySvd(svdData);
    pst.OverlayReg(regData);
  }

  /** `pst.zero_weight_obs_names`: the observations of weight 0, in order. */
  function ZeroWeightNames(obs: seq<Observation>): (r: seq<string>)
  {
    if obs == [] then []
    else ZeroWeightNames(obs[..|obs| - 1]) + (if obs[|obs| - 1].weight == 0 then [obs[|obs| - 1].name] else [])
  }

  /** A name is listed exactly when some observation of that name has
      weight 0, and there are no more names than observations. */
  lemma {:induction false} ZeroWeightNamesAre(obs: seq<Observation>)
    ensures |ZeroWeightNames(obs)| <= |obs|
    ensures forall n :: n in ZeroWeightNames(obs) <==> exists k :: 0 <= k < |obs| && obs[k].name == n && obs[k].weight == 0
  {
    if obs != [] {
      var p := obs[..|obs| - 1];
      ZeroWeightNamesAre(p);
      forall n ensures n in ZeroWeightNames(obs) <==> exists k :: 0 <= k < |obs| && obs[k].name == n && obs[k].weight == 0 {
        if n in ZeroWeightNames(p) {
          var k :| 0 <= k < |p| && p[k].name == n && p[k].weight == 0;
          assert obs[k] == p[k];
        }
        if exists k :: 0 <= k < |obs| && obs[k].name == n && obs[k].weight == 0 {
          var k :| 0 <= k < |obs| && obs[k].name == n && obs[k].weight == 0;
          if k < |p| {
            assert p[k] == obs[k];
          }
        }
      }
    }
  }
}
