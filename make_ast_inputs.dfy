/** The orchestration of `make_ast_inputs` (make_ast_inputs.py lines 28-173):
    derive the magnitude cuts, choose the SEDs (from the cache file or from
    the flux-bin sampler), then assign positions with the first strategy
    whose map is configured. The collaborators are not modelled; a run is
    the ordered list of calls it makes on them, with their arguments. */
module MakeAstInputs {
  import opened Outcomes
  import opened MagnitudeCuts
  import opened AstPaths

  /** The survey settings the run reads from `datamodel`. */
  datatype Config = Config(
    project: string,
    obsfile: string,
    filters: seq<string>,
    astMaglimit: seq<real>,
    astRealizationPerModel: int,
    astBandsAboveMaglimit: int,
    astNFluxBins: int,
    astNPerFluxBin: int,
    astModelsSelectedPerAge: int,
    astWithPositions: bool,
    astSourceDensityTable: Option<string>,
    astBackgroundTable: Option<string>,
    astNBins: int,
    astReferenceImage: Option<string>,
    astPixelDistribution: real,
    astCoordBoundary: Option<seq<seq<real>>>)

  /** What the run sees of the outside world: the files that exist, the
      catalog table stored in `obsfile`, and the percentile routine. */
  datatype Env = Env(files: set<string>, obsTable: ObsTable, p90: Percentile)

  /** The observation catalog `obsdata`, as handed to the position routines. */
  datatype ObsRef = ObsData(obsfile: string, filters: seq<string>)

  /** Where `chosen_seds` came from. */
  datatype ChosenSeds =
    | ToothpickResult          // the table pick_models_toothpick_style returned
    | ReadFrom(path: string)   // the table Table.read returned for this file

  /** A call on a collaborator. `regionFromFilters == None` means the
      keyword is not passed. */
  datatype Call =
    | GetObscat(obsfile: string, filters: seq<string>)
    | PickModelsToothpickStyle(sedGrid: string, filters: seq<string>, magCuts: seq<real>,
                               nFilter: int, nFluxes: int, minNPerFlux: int,
                               outfile: string, outfileParams: string, binsOutfile: string)
    | ReadTable(path: string, format: string)
    | PickPositionsFromMap(obs: ObsRef, seds: ChosenSeds, mapFile: string,
                           nBins: int, realizationPerModel: int, outfile: string,
                           refimage: Option<string>, refimageHdu: int, wcsOrigin: int,
                           nRealize: int, coordBoundary: Option<seq<seq<real>>>,
                           regionFromFilters: Option<string>)
    | PickPositions(obs: ObsRef, outfile: string, pixelDistribution: real, refimage: Option<string>)
  {
    predicate IsSampler() { PickModelsToothpickStyle? }
    predicate IsPositionCall() { PickPositionsFromMap? || PickPositions? }
  }

  datatype Status = Done | Failed(error: Error)

  /** The calls a run makes, in order, and how it ends. */
  datatype Run = Run(calls: seq<Call>, status: Status)

  /** The name of the local that the random branch reads unassigned. */
  const GridLocal: string := "modelsedgrid_filename"

  function ObsCatalog(cfg: Config, env: Env): Catalog
  {
    Catalog(cfg.filters, env.obsTable)
  }

  function Obs(cfg: Config): ObsRef
  {
    ObsData(cfg.obsfile, cfg.filters)
  }

  /** SED selection (lines 68-117): the cache file is read if it exists;
      otherwise the flux-bin branch calls its sampler, and the random branch
      stops on the grid file name it never assigned. */
  function SelectSeds(cfg: Config, files: set<string>, fluxBinMethod: bool, magCuts: seq<real>)
    : Result<(Call, ChosenSeds)>
  {
    var outfileSeds := SedsFile(cfg.project);
    if outfileSeds !in files then
      if fluxBinMethod then
        Ok((PickModelsToothpickStyle(SedGridFile(cfg.project), cfg.filters, magCuts,
                                     cfg.astBandsAboveMaglimit, cfg.astNFluxBins, cfg.astNPerFluxBin,
                                     outfileSeds, ParamsFile(cfg.project), FluxBinsFile(cfg.project)),
            ToothpickResult))
      else
        Err(UnboundLocalError(GridLocal))
    else
      Ok((ReadTable(outfileSeds, "ascii"), ReadFrom(outfileSeds)))
  }

  /** Position assignment (lines 125-173): nothing unless positions are
      wanted; otherwise the density map, else the background map, else the
      catalog's own distribution. */
  function AssignPositions(cfg: Config, seds: ChosenSeds): seq<Call>
  {
    if !cfg.astWithPositions then []
    else
      var outfile := InputAstFile(cfg.project);
      match cfg.astSourceDensityTable
      case Some(table) =>
        [PickPositionsFromMap(Obs(cfg), seds, table, cfg.astNBins, cfg.astRealizationPerModel,
                              outfile, cfg.astReferenceImage, 1, 1, 1, cfg.astCoordBoundary, Some("all"))]
      case None =>
        match cfg.astBackgroundTable
        case Some(table) =>
          [PickPositionsFromMap(Obs(cfg), seds, table, cfg.astNBins, cfg.astRealizationPerModel,
                                outfile, cfg.astReferenceImage, 1, 1, 1, cfg.astCoordBoundary, None)]
        case None =>
          [PickPositions(Obs(cfg), outfile, cfg.astPixelDistribution, cfg.astReferenceImage)]
  }

  /** The run `make_ast_inputs(flux_bin_method)` makes. */
  function Plan(cfg: Config, env: Env, fluxBinMethod: bool): Run
    requires DefinedOnNonEmpty(env.p90)
  {
    var load := GetObscat(cfg.obsfile, cfg.filters);
    match MagCuts(cfg.astMaglimit, ObsCatalog(cfg, env), env.p90)
    case Err(e) => Run([load], Failed(e))
    case Ok(cuts) =>
      match SelectSeds(cfg, env.files, fluxBinMethod, cuts)
      case Err(e) => Run([load], Failed(e))
      case Ok((call, seds)) => Run([load, call] + AssignPositions(cfg, seds), Done)
  }

  /** `make_ast_inputs`: the cut loop runs imperatively, the rest is the
      branching above. */
  method MakeAstInputs(cfg: Config, env: Env, fluxBinMethod: bool) returns (run: Run)
    requires DefinedOnNonEmpty(env.p90)
    ensures run == Plan(cfg, env, fluxBinMethod)
  {
    var calls := [GetObscat(cfg.obsfile, cfg.filters)];
    var cuts := ResolveMagCuts(cfg.astMaglimit, ObsCatalog(cfg, env), env.p90);
    if cuts.Err? {
      return Run(calls, Failed(cuts.error));
    }
    var selection := SelectSeds(cfg, env.files, fluxBinMethod, cuts.value);
    if selection.Err? {
      return Run(calls, Failed(selection.error));
    }
    var (call, seds) := selection.value;
    calls := calls + [call] + AssignPositions(cfg, seds);
    run := Run(calls, Done);
  }

  // ---------------------------------------------------------------------
  // What the collaborators leave on disk

  /** The files a call writes, by the collaborators' contracts. */
  function Writes(c: Call): set<string>
  {
    match c
    case PickModelsToothpickStyle(_, _, _, _, _, _, outfile, outfileParams, binsOutfile) =>
      {outfile, outfileParams, binsOutfile}
    case PickPositionsFromMap(_, _, _, _, _, outfile, _, _, _, _, _, _) => {outfile}
    case PickPositions(_, outfile, _, _) => {outfile}
    case _ => {}
  }

  function WrittenBy(calls: seq<Call>): set<string>
  {
    if calls == [] then {} else Writes(calls[0]) + WrittenBy(calls[1..])
  }

  lemma {:induction false} WrittenByConcat(a: seq<Call>, b: seq<Call>)
    ensures WrittenBy(a + b) == WrittenBy(a) + WrittenBy(b)
    decreases |a|
  {
    if a == [] {
      assert a + b == b;
    } else {
      assert (a + b)[1..] == a[1..] + b;
      WrittenByConcat(a[1..], b);
    }
  }

  lemma WrittenByOne(a: Call)
    ensures WrittenBy([a]) == Writes(a)
  {
  }

  lemma WrittenByTwo(a: Call, b: Call)
    ensures WrittenBy([a, b]) == Writes(a) + Writes(b)
  {
    assert [a, b][1..] == [b];
    assert WrittenBy([a, b]) == Writes(a) + WrittenBy([b]);
    WrittenByOne(b);
  }

  // ---------------------------------------------------------------------
  // Properties of a run

  /** A run that fails has made only the catalog load and written nothing. */
  lemma FailedRunWritesNothing(cfg: Config, env: Env, fluxBinMethod: bool)
    requires DefinedOnNonEmpty(env.p90)
    ensures var run := Plan(cfg, env, fluxBinMethod);
      run.status.Failed? ==>
        run.calls == [GetObscat(cfg.obsfile, cfg.filters)] && WrittenBy(run.calls) == {}
  {
    WrittenByOne(GetObscat(cfg.obsfile, cfg.filters));
  }

  /** When the cuts cannot be derived the run stops with that error. */
  lemma CutErrorStopsRun(cfg: Config, env: Env, fluxBinMethod: bool)
    requires DefinedOnNonEmpty(env.p90)
    requires MagCuts(cfg.astMaglimit, ObsCatalog(cfg, env), env.p90).Err?
    ensures Plan(cfg, env, fluxBinMethod)
            == Run([GetObscat(cfg.obsfile, cfg.filters)],
                   Failed(MagCuts(cfg.astMaglimit, ObsCatalog(cfg, env), env.p90).error))
  {
  }

  /** Cache hit: the SED file is read and neither sampler runs; the
      positions are drawn for the table that was read. */
  lemma CacheHitReadsFile(cfg: Config, env: Env, fluxBinMethod: bool)
    requires DefinedOnNonEmpty(env.p90)
    requires MagCuts(cfg.astMaglimit, ObsCatalog(cfg, env), env.p90).Ok?
    requires SedsFile(cfg.project) in env.files
    ensures var run := Plan(cfg, env, fluxBinMethod);
      && run.status == Done
      && run.calls[..2] == [GetObscat(cfg.obsfile, cfg.filters), ReadTable(SedsFile(cfg.project), "ascii")]
      && (forall i :: 0 <= i < |run.calls| ==> !run.calls[i].IsSampler())
      && (forall i :: 0 <= i < |run.calls| && run.calls[i].PickPositionsFromMap? ==>
            run.calls[i].seds == ReadFrom(SedsFile(cfg.project)))
  {
  }

  /** Cache miss in flux-bin mode: the flux-bin sampler is the second call,
      with the grid, the cuts and the three output files of the project. */
  lemma FluxBinMissCallsToothpick(cfg: Config, env: Env)
    requires DefinedOnNonEmpty(env.p90)
    requires MagCuts(cfg.astMaglimit, ObsCatalog(cfg, env), env.p90).Ok?
    requires SedsFile(cfg.project) !in env.files
    ensures var run := Plan(cfg, env, true);
      var cuts := MagCuts(cfg.astMaglimit, ObsCatalog(cfg, env), env.p90).value;
      && run.status == Done
      && run.calls[1] == PickModelsToothpickStyle(
           SedGridFile(cfg.project), cfg.filters, cuts, cfg.astBandsAboveMaglimit,
           cfg.astNFluxBins, cfg.astNPerFluxBin,
           SedsFile(cfg.project), ParamsFile(cfg.project), FluxBinsFile(cfg.project))
      && (forall i :: 0 <= i < |run.calls| && i != 1 ==> !run.calls[i].IsSampler())
  {
  }

  /** Cache miss in random mode: the grid file name was never assigned, so
      the run stops before any sampler is called. */
  lemma RandomMissIsUnbound(cfg: Config, env: Env)
    requires DefinedOnNonEmpty(env.p90)
    requires MagCuts(cfg.astMaglimit, ObsCatalog(cfg, env), env.p90).Ok?
    requires SedsFile(cfg.project) !in env.files
    ensures Plan(cfg, env, false)
            == Run([GetObscat(cfg.obsfile, cfg.filters)], Failed(UnboundLocalError(GridLocal)))
  {
  }

  /** At most one sampler call per run. */
  lemma AtMostOneSampler(cfg: Config, env: Env, fluxBinMethod: bool)
    requires DefinedOnNonEmpty(env.p90)
    ensures var calls := Plan(cfg, env, fluxBinMethod).calls;
      forall i, j ::
        0 <= i < |calls| && 0 <= j < |calls| && calls[i].IsSampler() && calls[j].IsSampler() ==> i == j
  {
  }

  /** The flux-bin file is written only by a flux-bin run that found no
      cached SED file. */
  lemma FluxBinsOnlyFromToothpick(cfg: Config, env: Env, fluxBinMethod: bool)
    requires DefinedOnNonEmpty(env.p90)
    ensures FluxBinsFile(cfg.project) in WrittenBy(Plan(cfg, env, fluxBinMethod).calls)
            ==> fluxBinMethod && SedsFile(cfg.project) !in env.files
  {
    var run := Plan(cfg, env, fluxBinMethod);
    var cuts := MagCuts(cfg.astMaglimit, ObsCatalog(cfg, env), env.p90);
    if cuts.Ok? && SelectSeds(cfg, env.files, fluxBinMethod, cuts.value).Ok? {
      var (call, seds) := SelectSeds(cfg, env.files, fluxBinMethod, cuts.value).value;
      var positions := AssignPositions(cfg, seds);
      assert run.calls == [GetObscat(cfg.obsfile, cfg.filters), call] + positions;
      WrittenByConcat([GetObscat(cfg.obsfile, cfg.filters), call], positions);
      WrittenByTwo(GetObscat(cfg.obsfile, cfg.filters), call);
      assert |positions| <= 1;
      if |positions| == 1 {
        assert positions == [positions[0]];
        WrittenByOne(positions[0]);
        assert |InputAstFile(cfg.project)| != |FluxBinsFile(cfg.project)|;
      } else {
        assert WrittenBy(positions) == {};
      }
    } else {
      WrittenByOne(GetObscat(cfg.obsfile, cfg.filters));
    }
  }

  /** Without `ast_with_positions` no position routine is called. */
  lemma NoPositionsWhenDisabled(cfg: Config, env: Env, fluxBinMethod: bool)
    requires DefinedOnNonEmpty(env.p90)
    requires !cfg.astWithPositions
    ensures var calls := Plan(cfg, env, fluxBinMethod).calls;
      forall i :: 0 <= i < |calls| ==> !calls[i].IsPositionCall()
  {
  }

  /** With `ast_with_positions`, a finished run ends with exactly one
      position call, chosen by priority: density table, then background
      table, then the catalog. Only the density branch asks for the region
      of all filters; the catalog branch is not given the chosen SEDs. */
  lemma PositionStrategyByPriority(cfg: Config, env: Env, fluxBinMethod: bool)
    requires DefinedOnNonEmpty(env.p90)
    requires cfg.astWithPositions
    requires Plan(cfg, env, fluxBinMethod).status == Done
    ensures var calls := Plan(cfg, env, fluxBinMethod).calls;
      var seds := if SedsFile(cfg.project) in env.files then ReadFrom(SedsFile(cfg.project))
                  else ToothpickResult;
      var outfile := InputAstFile(cfg.project);
      && |calls| == 3
      && !calls[0].IsPositionCall() && !calls[1].IsPositionCall()
      && (cfg.astSourceDensityTable.Some? ==>
            calls[2] == PickPositionsFromMap(Obs(cfg), seds, cfg.astSourceDensityTable.value,
                                             cfg.astNBins, cfg.astRealizationPerModel, outfile,
                                             cfg.astReferenceImage, 1, 1, 1, cfg.astCoordBoundary,
                                             Some("all")))
      && (cfg.astSourceDensityTable.None? && cfg.astBackgroundTable.Some? ==>
            calls[2] == PickPositionsFromMap(Obs(cfg), seds, cfg.astBackgroundTable.value,
                                             cfg.astNBins, cfg.astRealizationPerModel, outfile,
                                             cfg.astReferenceImage, 1, 1, 1, cfg.astCoordBoundary,
                                             None))
      && (cfg.astSourceDensityTable.None? && cfg.astBackgroundTable.None? ==>
            calls[2] == PickPositions(Obs(cfg), outfile, cfg.astPixelDistribution,
                                      cfg.astReferenceImage))
  {
  }

  /** A map call that asks for the region of all filters always uses the
      density table, even when a background table is configured too. */
  lemma AllFiltersRegionOnlyForDensity(cfg: Config, env: Env, fluxBinMethod: bool)
    requires DefinedOnNonEmpty(env.p90)
    ensures var calls := Plan(cfg, env, fluxBinMethod).calls;
      forall i :: 0 <= i < |calls| && calls[i].PickPositionsFromMap? ==>
        (calls[i].regionFromFilters == Some("all") <==> cfg.astSourceDensityTable.Some?) &&
        (cfg.astSourceDensityTable.Some? ==> calls[i].mapFile == cfg.astSourceDensityTable.value)
  {
  }

  /** Resuming: after a finished run, a second run with the same settings
      (in either mode) finds the SED file the first run left, reads it, and
      calls no sampler. */
  lemma SecondRunReadsCache(cfg: Config, env: Env, first: bool, second: bool)
    requires DefinedOnNonEmpty(env.p90)
    requires Plan(cfg, env, first).status == Done
    ensures var env' := env.(files := env.files + WrittenBy(Plan(cfg, env, first).calls));
      var again := Plan(cfg, env', second);
      && again.status == Done
      && again.calls[1] == ReadTable(SedsFile(cfg.project), "ascii")
      && (forall i :: 0 <= i < |again.calls| ==> !again.calls[i].IsSampler())
  {
    var run := Plan(cfg, env, first);
    if SedsFile(cfg.project) !in env.files {
      var cuts := MagCuts(cfg.astMaglimit, ObsCatalog(cfg, env), env.p90).value;
      var (call, seds) := SelectSeds(cfg, env.files, first, cuts).value;
      var positions := AssignPositions(cfg, seds);
      WrittenByConcat([GetObscat(cfg.obsfile, cfg.filters), call], positions);
      WrittenByTwo(GetObscat(cfg.obsfile, cfg.filters), call);
      assert SedsFile(cfg.project) in Writes(call);
    }
    var env' := env.(files := env.files + WrittenBy(run.calls));
    assert ObsCatalog(cfg, env') == ObsCatalog(cfg, env);
    assert SedsFile(cfg.project) in env'.files;
    CacheHitReadsFile(cfg, env', second);
  }
}
