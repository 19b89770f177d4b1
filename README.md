# make_ast_inputs: a verified model of the AST input orchestration

`make_ast_inputs` (in the BEAST toolkit) builds the input list for an
artificial-star-test campaign. It works in three steps:

1. It derives one faint-end magnitude cut per filter from the observation catalog.
2. It chooses the synthetic SEDs to inject. It reads them from the cached SED file when that file exists, and otherwise dispatches on `flux_bin_method`; the random branch fails, see below.
3. Optionally, it assigns positions with the first strategy whose map is configured.

This project models that decision logic. The collaborators it calls are not
modelled; a run is the ordered list of calls it makes on them, with their
arguments, together with how it ends (`Done` or `Failed(error)`).

Modules:

- `Outcomes` (outcomes.dfy): `Option`, the pipeline's errors (`KeyError`, `NoValidMagnitudes`, `UnboundLocalError`) and `Result`.
- `ColumnNames` (column_names.dfy): Python's `str.replace` as `ReplaceAll`, and `MagnitudeColumn`. `MagnitudeColumn` rewrites every `rate` to `vega` and then every `RATE` to `VEGA`.
- `MagnitudeCuts` (mag_cuts.dfy): the cut resolver.
  - `ValidMagnitudes` keeps the entries below the 99.0 sentinel.
  - `FilterCut` gives one filter's percentile.
  - `MinMags` gives the per-filter vector, and `MagCuts` adds the offset or passes the configured list through.
  - `ResolveMagCuts` is the source's loop. It fills a zero-initialised array in filter order and is proved equal to `MagCuts`.
  - The percentile is an abstract `seq<real> --> real`, only ever applied to a non-empty sequence.
  - The alias resolver is an uninterpreted `string -> string`.
- `AstPaths` (ast_paths.dfy): the project-namespaced artifact paths `./P/P<suffix>` and their inverse `ProjectOf`.
- `MakeAstInputs` (make_ast_inputs.dfy): the rest of the run.
  - `Config` holds the `datamodel` settings.
  - `Env` holds the set of existing files, the catalog table and the percentile routine.
  - `SelectSeds` models the cache check and sampler dispatch, and `AssignPositions` models the priority-ordered position dispatch.
  - `Plan` is the whole run as a function. The method `MakeAstInputs` runs the imperative cut loop, then the two dispatches, and is proved equal to `Plan`.
  - `Writes`/`WrittenBy` say which files each collaborator call leaves behind, by the collaborators' own contracts. This is what lets a second run be stated.

The random-selection branch reads `modelsedgrid_filename`, which only the
flux-bin branch assigns (lines 85 and 104). Python therefore raises
`UnboundLocalError` on that path before `pick_models` is called. The model
reproduces this: a random run with no cached SED file ends
`Failed(UnboundLocalError("modelsedgrid_filename"))`, and `pick_models` never
appears in any trace.

The model follows the code in two places where a looser reading is possible:

- The column rewrite is case-sensitive. Only the exact substrings `rate` and `RATE` are replaced, so `Rate` is kept.
- A configured cut list whose length is not one is passed on unchanged, even when its length differs from the number of filters. No length check is made.

## Model

| member | source | states |
|---|---|---|
| ColumnNames.ReplaceAll | beast/tools/run/make_ast_inputs.py:56-57 | definition of Python's `str.replace`: non-overlapping occurrences, scanned from the left; its properties are the ReplaceAll lemmas below |
| ColumnNames.MagnitudeColumn | beast/tools/run/make_ast_inputs.py:55-57 | definition: the resolved alias with `rate` replaced, then `RATE`; its properties are MagnitudeColumnClean and MagnitudeColumnUnchangedIff |
| MagnitudeCuts.ColumnOf | beast/tools/run/make_ast_inputs.py:55-57 | definition: the magnitude column of a filter is the rewritten alias |
| MagnitudeCuts.FilterCut | beast/tools/run/make_ast_inputs.py:55-59 | definition of one filter's cut, with the `KeyError` and empty-column outcomes; characterised by FilterCutErrors |
| MagnitudeCuts.MinMags | beast/tools/run/make_ast_inputs.py:53-59 | definition of the per-filter vector in filter order, first error wins; characterised by MinMagsAllOk, MinMagsFirstError and MinMagsError |
| MagnitudeCuts.MagCuts | beast/tools/run/make_ast_inputs.py:48-62 | definition of the cut vector; characterised by MagCutsCharacterized and MagCutsFirstError, implemented by ResolveMagCuts |
| AstPaths.ProjectPath | beast/tools/run/make_ast_inputs.py:72-73 | definition of `"./{0}/{0}<suffix>".format(project)`; its inverse is ProjectOf (ProjectOfIff) |
| AstPaths.SedsFile | beast/tools/run/make_ast_inputs.py:72 | definition: `./P/P_inputAST_seds.txt` |
| AstPaths.ParamsFile | beast/tools/run/make_ast_inputs.py:73 | definition: `./P/P_ASTparams.fits` |
| AstPaths.FluxBinsFile | beast/tools/run/make_ast_inputs.py:84 | definition: `./P/P_ASTfluxbins.txt` |
| AstPaths.SedGridFile | beast/tools/run/make_ast_inputs.py:85 | definition: `./P/P_seds.grid.hd5` |
| AstPaths.InputAstFile | beast/tools/run/make_ast_inputs.py:129 | definition: `./P/P_inputAST.txt` |
| AstPaths.ProjectOf | beast/tools/run/make_ast_inputs.py:72-73 | definition of the inverse of the path format; proved an inverse by ProjectOfIff |
| MakeAstInputs.SelectSeds | beast/tools/run/make_ast_inputs.py:68-117 | definition of the cache check and sampler dispatch; its cases are CacheHitReadsFile, FluxBinMissCallsToothpick and RandomMissIsUnbound |
| MakeAstInputs.AssignPositions | beast/tools/run/make_ast_inputs.py:125-173 | definition of the position dispatch; its cases are NoPositionsWhenDisabled, PositionStrategyByPriority and AllFiltersRegionOnlyForDensity |
| MakeAstInputs.Plan | beast/tools/run/make_ast_inputs.py:28-173 | definition of the whole run as a call trace; the run lemmas below state its properties, and MakeAstInputs is proved equal to it |
| MakeAstInputs.Writes | beast/tools/run/make_ast_inputs.py:87-97 | not code in the file: an assumption about the collaborators' outputs (the flux-bin sampler writes its three output files, each position routine writes its outfile) |
| MakeAstInputs.WrittenBy | beast/tools/run/make_ast_inputs.py:76-173 | the files a trace leaves behind, on the same assumption as Writes |
| ColumnNames.ReplaceAllLength | beast/tools/run/make_ast_inputs.py:56-57 | replacing a pattern by a text of the same length keeps the name's length |
| ColumnNames.ReplaceAllFirstOccurrence | beast/tools/run/make_ast_inputs.py:56-57 | at the first occurrence of the pattern, it becomes the replacement text; the part before it is kept unchanged and the part after it is rewritten the same way (with ReplaceAllNoMatch for a tail without the pattern, this fixes the result for every name) |
| ColumnNames.ReplaceAllNoMatch | beast/tools/run/make_ast_inputs.py:56-57 | a name in which the pattern does not occur is returned unchanged |
| ColumnNames.ReplaceAllChanges | beast/tools/run/make_ast_inputs.py:56-57 | a name in which the pattern occurs is changed (same-length, different replacement) |
| ColumnNames.ReplaceAllRemoves | beast/tools/run/make_ast_inputs.py:56-57 | after the replacement the pattern no longer occurs, when the replacement cannot form a new occurrence across a seam |
| ColumnNames.ReplaceAllPreservesAbsence | beast/tools/run/make_ast_inputs.py:56-57 | the replacement creates no occurrence of another pattern that shares no character with the replacement text |
| ColumnNames.MagnitudeColumnClean | beast/tools/run/make_ast_inputs.py:55-57 | the rewritten alias has the alias's length and contains neither `rate` nor `RATE` |
| ColumnNames.MagnitudeColumnUnchangedIff | beast/tools/run/make_ast_inputs.py:55-57 | the rewrite leaves a name unchanged exactly when it has neither `rate` nor `RATE` |
| ColumnNames.MagnitudeColumnUpper | beast/tools/run/make_ast_inputs.py:57 | `F475W_RATE` becomes `F475W_VEGA` |
| ColumnNames.MagnitudeColumnLower | beast/tools/run/make_ast_inputs.py:56 | `f814w_rate` becomes `f814w_vega` |
| ColumnNames.MagnitudeColumnMixed | beast/tools/run/make_ast_inputs.py:55-57 | a mixed-case `Rate` is left as it is |
| MagnitudeCuts.ValidMagnitudes | beast/tools/run/make_ast_inputs.py:58-59 | a value is kept exactly when it is in the column and below 99.0; nothing is added |
| MagnitudeCuts.SentinelIgnored | beast/tools/run/make_ast_inputs.py:58-59 | an entry at or above 99.0, wherever it sits, never changes the values the percentile sees |
| MagnitudeCuts.FilterCutErrors | beast/tools/run/make_ast_inputs.py:55-59 | a filter fails with `KeyError(name)` exactly when its rewritten column is missing; it fails with `NoValidMagnitudes` exactly when every entry is at or above 99.0; otherwise it has a cut |
| MagnitudeCuts.MinMagsAllOk | beast/tools/run/make_ast_inputs.py:53-59 | the per-filter vector exists exactly when every filter has a cut, and then it has one entry per filter, equal to that filter's cut, in filter order |
| MagnitudeCuts.MinMagsFirstError | beast/tools/run/make_ast_inputs.py:54-59 | when filters before k succeed and filter k fails, the vector fails with filter k's error |
| MagnitudeCuts.MinMagsError | beast/tools/run/make_ast_inputs.py:54-59 | a failing vector fails with the error of its first failing filter |
| MagnitudeCuts.ResolveMagCuts | beast/tools/run/make_ast_inputs.py:48-62 | the zero-initialised array filled in the loop, plus the offset, is exactly `MagCuts`, including its error cases |
| MagnitudeCuts.MagCutsCharacterized | beast/tools/run/make_ast_inputs.py:48-62 | a configured list of length other than one is used unchanged. With one value: the cuts exist iff every filter has one, there is one per filter, and entry k is p90(valid magnitudes of filter k's column) plus the offset |
| MagnitudeCuts.MagCutsFirstError | beast/tools/run/make_ast_inputs.py:51-59 | the cut derivation fails only with a single offset, and then with the first failing filter's error |
| MagnitudeCuts.MagCutsIgnoreSentinel | beast/tools/run/make_ast_inputs.py:58-62 | adding an entry at or above 99.0 to any catalog column changes no cut |
| AstPaths.ProjectOfIff | beast/tools/run/make_ast_inputs.py:72-73 | a path is project P's artifact with a given suffix exactly when it reads `./P/P<suffix>` |
| AstPaths.ProjectPathInjective | beast/tools/run/make_ast_inputs.py:72-73 | for one kind of artifact (suffixes of equal length), two projects never share a path |
| AstPaths.ArtifactsDistinct | beast/tools/run/make_ast_inputs.py:72-85 | the SED list, parameters, flux bins, SED grid and (line 129) manifest paths of one project are five different files |
| MakeAstInputs.MakeAstInputs | beast/tools/run/make_ast_inputs.py:28-173 | the run (cut loop, SED selection, position assignment) is exactly `Plan` |
| MakeAstInputs.FailedRunWritesNothing | beast/tools/run/make_ast_inputs.py:48-112 | a failed run has made only the catalog load and written no file |
| MakeAstInputs.CutErrorStopsRun | beast/tools/run/make_ast_inputs.py:48-62 | a cut error stops the run right after the catalog load, with that error |
| MakeAstInputs.CacheHitReadsFile | beast/tools/run/make_ast_inputs.py:76-117 | with the SED file present, it is read as ascii and no sampler is called. The position routines get the table that was read |
| MakeAstInputs.FluxBinMissCallsToothpick | beast/tools/run/make_ast_inputs.py:80-97 | with no cached file in flux-bin mode, the second call is `pick_models_toothpick_style`. Its arguments are the project's grid, the filters, the cuts, the band count, the bin sizes and the three output files; no other call is a sampler |
| MakeAstInputs.RandomMissIsUnbound | beast/tools/run/make_ast_inputs.py:99-112 | with no cached file in random mode, the run stops with `UnboundLocalError` on the grid file name before any sampler is called |
| MakeAstInputs.AtMostOneSampler | beast/tools/run/make_ast_inputs.py:76-117 | no run calls a sampler twice |
| MakeAstInputs.FluxBinsOnlyFromToothpick | beast/tools/run/make_ast_inputs.py:80-112 | the flux-bin file is written only by a flux-bin run that found no cached SED file |
| MakeAstInputs.NoPositionsWhenDisabled | beast/tools/run/make_ast_inputs.py:125 | without `ast_with_positions` no position routine is called |
| MakeAstInputs.PositionStrategyByPriority | beast/tools/run/make_ast_inputs.py:125-173 | with positions, a finished run's third and last call is the one position call. The density table wins, then the background table, then the catalog. The map calls pass bins and realizations positionally, plus hdu 1, origin 1, Nrealize 1 and the boundary. Only the density call passes region `all`. The catalog call gets the catalog, outfile, pixel distribution and reference image, not the SEDs |
| MakeAstInputs.AllFiltersRegionOnlyForDensity | beast/tools/run/make_ast_inputs.py:133-163 | a map call asks for region `all` exactly when a density table is configured, and it then uses that table even when a background table is configured too |
| MakeAstInputs.SecondRunReadsCache | beast/tools/run/make_ast_inputs.py:76-117 | after a finished run, a second run with the same settings (either mode) reads the SED file the first left and calls no sampler |

## Left out

- The internals of `pick_models_toothpick_style`, `pick_models`, `pick_positions_from_map` and `pick_positions` are not modelled. They are recorded as calls; the files they write follow their documented outputs (`Writes`).
- `pick_models` is never reached in the source (see above), so it has no call in the model.
- File I/O is not modelled. `os.path.isfile` is membership in `Env.files`, and `Table.read` is the symbolic value `ReadFrom(path)`.
- `np.percentile(..., 90.0)` is not computed. It is an abstract function defined on non-empty sequences, because its floating-point interpolation is numpy's.
- A filter whose every magnitude is at or above 99.0 ends the run with `NoValidMagnitudes`. numpy's own behaviour on an empty array (a warning and NaN, or an exception, by version) is not modelled.
- The alias resolver, `get_obscat`, `verify_params.verify_input_format` and `importlib.reload` are configuration glue. The resolver is an uninterpreted function of the catalog table. `get_obscat` is recorded as the first call and gives a catalog for the configured filters, so the loop over `obsdata.filters` runs over `datamodel.filters`.
- A missing catalog column is modelled as a `KeyError` outcome. Exceptions the collaborators themselves may raise are not modelled.
- `print` logging and the `argparse`/help block (lines 176-192) are left out; `flux_bin_method` is a parameter.
- Floating-point arithmetic is modelled as `real`.
- Concurrent runs on one project are not modelled; the source is single-threaded.
