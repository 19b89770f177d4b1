/** The project-namespaced file names of make_ast_inputs.py: every artifact
    of project P lives at `./P/P<suffix>` (`"./{0}/{0}<suffix>".format(P)`). */
module AstPaths {
  import opened Outcomes

  const SedsSuffix: string := "_inputAST_seds.txt"
  const ParamsSuffix: string := "_ASTparams.fits"
  const FluxBinsSuffix: string := "_ASTfluxbins.txt"
  const SedGridSuffix: string := "_seds.grid.hd5"
  const InputAstSuffix: string := "_inputAST.txt"

  function ProjectPath(project: string, suffix: string): string
  {
    "./" + project + "/" + project + suffix
  }

  /** The chosen SEDs (`outfile_seds`), also the cache that is checked. */
  function SedsFile(project: string): string { ProjectPath(project, SedsSuffix) }
  /** The parameters of the chosen SEDs (`outfile_params`). */
  function ParamsFile(project: string): string { ProjectPath(project, ParamsSuffix) }
  /** The flux-bin boundaries (`bins_outfile`). */
  function FluxBinsFile(project: string): string { ProjectPath(project, FluxBinsSuffix) }
  /** The synthetic SED grid (`modelsedgrid_filename`). */
  function SedGridFile(project: string): string { ProjectPath(project, SedGridSuffix) }
  /** The final manifest with positions (`outfile`). */
  function InputAstFile(project: string): string { ProjectPath(project, InputAstSuffix) }

  /** The project whose artifact with this suffix the path names, if any. */
  function ProjectOf(path: string, suffix: string): Option<string>
  {
    if |path| < 3 + |suffix| || (|path| - 3 - |suffix|) % 2 != 0 then None
    else
      var n := (|path| - 3 - |suffix|) / 2;
      var project := path[2..2 + n];
      if path == ProjectPath(project, suffix) then Some(project) else None
  }

  /** A path is the artifact with this suffix of project P exactly when it
      reads `./P/P<suffix>`. */
  lemma ProjectOfIff(path: string, suffix: string, project: string)
    ensures ProjectOf(path, suffix) == Some(project) <==> path == ProjectPath(project, suffix)
  {
    if path == ProjectPath(project, suffix) {
      assert |path| == 3 + 2 * |project| + |suffix|;
      assert path[2..2 + |project|] == project;
    }
  }

  /** Different projects, or different artifacts of one kind of name length,
      never share a path. */
  lemma ProjectPathInjective(p: string, q: string, s: string, t: string)
    requires |s| == |t|
    ensures ProjectPath(p, s) == ProjectPath(q, t) ==> p == q && s == t
  {
    if ProjectPath(p, s) == ProjectPath(q, t) {
      var path := ProjectPath(p, s);
      assert |p| == |q|;
      assert path[2..2 + |p|] == p;
      assert ProjectPath(q, t)[2..2 + |q|] == q;
      assert path[3 + 2 * |p|..] == s;
      assert ProjectPath(q, t)[3 + 2 * |q|..] == t;
    }
  }

  /** The five artifacts of one project are five different files. */
  lemma ArtifactsDistinct(project: string)
    ensures |{SedsFile(project), ParamsFile(project), FluxBinsFile(project),
              SedGridFile(project), InputAstFile(project)}| == 5
  {
  }
}
