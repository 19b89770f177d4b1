/** Magnitude-cut resolution (make_ast_inputs.py lines 48-62): either the
    configured cuts are used as they are, or a single configured value is an
    offset added to the 90th percentile of each filter's detected magnitudes. */
module MagnitudeCuts {
  import opened Outcomes
  import opened ColumnNames

  /** The magnitude the catalog records for a source that was not detected. */
  const Sentinel: real := 99.0

  /** The catalog table as read from disk: its alias resolver
      (`obsdata.data.resolve_alias`, left uninterpreted) and its columns. */
  datatype ObsTable = ObsTable(resolveAlias: string -> string, columns: map<string, seq<real>>)

  /** The observation catalog `get_obscat(obsfile, filters)` returns: the
      filter list it was loaded for and the table behind it. */
  datatype Catalog = Catalog(filters: seq<string>, table: ObsTable)

  /** `np.percentile(values, 90.0)`, left abstract; it is only ever applied
      to a non-empty sequence. */
  type Percentile = seq<real> --> real

  ghost predicate DefinedOnNonEmpty(p90: Percentile)
  {
    forall s: seq<real> :: |s| > 0 ==> p90.requires(s)
  }

  /** The magnitude column of a filter: its alias with `rate` renamed. */
  function ColumnOf(filter: string, cat: Catalog): string
  {
    MagnitudeColumn(cat.table.resolveAlias(filter))
  }

  /** The magnitudes below the sentinel, in catalog order
      (`obsdata[keep][name]` with `keep = where(obsdata[name] < 99.0)`). */
  function ValidMagnitudes(xs: seq<real>): (r: seq<real>)
    ensures |r| <= |xs|
    ensures forall x :: x in r <==> x in xs && x < Sentinel
    ensures forall x :: multiset(r)[x] == if x < Sentinel then multiset(xs)[x] else 0
  {
    if xs == [] then []
    else
      assert xs == [xs[0]] + xs[1..];
      (if xs[0] < Sentinel then [xs[0]] else []) + ValidMagnitudes(xs[1..])
  }

  /** The 90th percentile of one filter's detected magnitudes. */
  function FilterCut(filter: string, cat: Catalog, p90: Percentile): Result<real>
    requires DefinedOnNonEmpty(p90)
  {
    var name := ColumnOf(filter, cat);
    if name !in cat.table.columns then Err(KeyError(name))
    else
      var kept := ValidMagnitudes(cat.table.columns[name]);
      if |kept| == 0 then Err(NoValidMagnitudes(filter)) else Ok(p90(kept))
  }

  /** The per-filter percentiles, in filter order; the first filter that
      fails decides the error. */
  function MinMags(filters: seq<string>, cat: Catalog, p90: Percentile): Result<seq<real>>
    requires DefinedOnNonEmpty(p90)
    decreases |filters|
  {
    if filters == [] then Ok([])
    else
      match FilterCut(filters[0], cat, p90)
      case Err(e) => Err(e)
      case Ok(c) =>
        match MinMags(filters[1..], cat, p90)
        case Err(e) => Err(e)
        case Ok(rest) => Ok([c] + rest)
  }

  /** The cut vector handed to the SED samplers. */
  function MagCuts(astMaglimit: seq<real>, cat: Catalog, p90: Percentile): Result<seq<real>>
    requires DefinedOnNonEmpty(p90)
  {
    if |astMaglimit| == 1 then
      match MinMags(cat.filters, cat, p90)
      case Err(e) => Err(e)
      case Ok(m) => Ok(seq(|m|, k requires 0 <= k < |m| => m[k] + astMaglimit[0]))
    else Ok(astMaglimit)
  }

  /** `found` holds, in order, the cuts of the first `|found|` filters. */
  ghost predicate CutsSoFar(cat: Catalog, p90: Percentile, found: seq<real>)
    requires DefinedOnNonEmpty(p90)
  {
    |found| <= |cat.filters| &&
    forall j :: 0 <= j < |found| ==> FilterCut(cat.filters[j], cat, p90) == Ok(found[j])
  }

  /** The loop of make_ast_inputs.py: `min_mags` starts as zeros and is
      filled in filter order; the offset is added once the loop is done. */
  method ResolveMagCuts(astMaglimit: seq<real>, cat: Catalog, p90: Percentile)
    returns (cuts: Result<seq<real>>)
    requires DefinedOnNonEmpty(p90)
    ensures cuts == MagCuts(astMaglimit, cat, p90)
  {
    if |astMaglimit| != 1 {
      return Ok(astMaglimit);
    }
    var offset := astMaglimit[0];
    var n := |cat.filters|;
    var minMags := new real[n](_ => 0.0);
    for k := 0 to n
      invariant CutsSoFar(cat, p90, minMags[..k])
    {
      var name := MagnitudeColumn(cat.table.resolveAlias(cat.filters[k]));
      if name !in cat.table.columns {
        MinMagsFirstError(cat.filters, cat, p90, k);
        return Err(KeyError(name));
      }
      var keep := ValidMagnitudes(cat.table.columns[name]);
      if |keep| == 0 {
        MinMagsFirstError(cat.filters, cat, p90, k);
        return Err(NoValidMagnitudes(cat.filters[k]));
      }
      minMags[k] := p90(keep);
      assert minMags[..k + 1] == minMags[..k] + [p90(keep)];
    }
    var found := minMags[..];
    assert found == minMags[..n];
    MinMagsAllOk(cat.filters, cat, p90);
    assert CutsSoFar(cat, p90, found);
    assert forall k :: 0 <= k < n ==> FilterCut(cat.filters[k], cat, p90).Ok?;
    ghost var m := MinMags(cat.filters, cat, p90).value;
    forall k | 0 <= k < n ensures m[k] == found[k] {
      assert FilterCut(cat.filters[k], cat, p90) == Ok(found[k]);
    }
    assert m == found;
    cuts := Ok(seq(n, j requires 0 <= j < n => found[j] + offset));
  }

  // ---------------------------------------------------------------------
  // Lemmas about the per-filter vector

  /** The vector exists exactly when every filter has a cut, and then it
      holds those cuts in filter order. */
  lemma {:induction false} MinMagsAllOk(filters: seq<string>, cat: Catalog, p90: Percentile)
    requires DefinedOnNonEmpty(p90)
    ensures MinMags(filters, cat, p90).Ok?
            <==> forall k :: 0 <= k < |filters| ==> FilterCut(filters[k], cat, p90).Ok?
    ensures MinMags(filters, cat, p90).Ok? ==>
              |MinMags(filters, cat, p90).value| == |filters| &&
              forall k :: 0 <= k < |filters| ==>
                MinMags(filters, cat, p90).value[k] == FilterCut(filters[k], cat, p90).value
    decreases |filters|
  {
    if filters != [] {
      MinMagsAllOk(filters[1..], cat, p90);
      assert forall k :: 1 <= k < |filters| ==> filters[k] == filters[1..][k - 1];
    }
  }

  /** When the filters before `k` have cuts and filter `k` fails, the
      vector fails with filter `k`'s error. */
  lemma {:induction false} MinMagsFirstError(filters: seq<string>, cat: Catalog, p90: Percentile, k: nat)
    requires DefinedOnNonEmpty(p90)
    requires k < |filters|
    requires forall j :: 0 <= j < k ==> FilterCut(filters[j], cat, p90).Ok?
    requires FilterCut(filters[k], cat, p90).Err?
    ensures MinMags(filters, cat, p90) == Err(FilterCut(filters[k], cat, p90).error)
    decreases k
  {
    if k > 0 {
      assert forall j :: 0 <= j < k - 1 ==> filters[1..][j] == filters[j + 1];
      MinMagsFirstError(filters[1..], cat, p90, k - 1);
      assert FilterCut(filters[0], cat, p90).Ok?;
    }
  }

  /** Two catalogs whose filters all get the same cut give the same vector. */
  lemma {:induction false} MinMagsCongruent(filters: seq<string>, cat: Catalog, cat': Catalog, p90: Percentile)
    requires DefinedOnNonEmpty(p90)
    requires forall f :: f in filters ==> FilterCut(f, cat, p90) == FilterCut(f, cat', p90)
    ensures MinMags(filters, cat, p90) == MinMags(filters, cat', p90)
    decreases |filters|
  {
    if filters != [] {
      assert filters[0] in filters;
      assert forall f :: f in filters[1..] ==> f in filters;
      MinMagsCongruent(filters[1..], cat, cat', p90);
    }
  }

  // ---------------------------------------------------------------------
  // Lemmas about the valid magnitudes

  /** Selecting valid magnitudes distributes over concatenation. */
  lemma {:induction false} ValidMagnitudesConcat(a: seq<real>, b: seq<real>)
    ensures ValidMagnitudes(a + b) == ValidMagnitudes(a) + ValidMagnitudes(b)
    decreases |a|
  {
    if a == [] {
      assert a + b == b;
    } else {
      assert (a + b)[1..] == a[1..] + b;
      ValidMagnitudesConcat(a[1..], b);
    }
  }

  /** An entry at or above the sentinel never changes the selected
      magnitudes, wherever it sits in the column. */
  lemma SentinelIgnored(a: seq<real>, x: real, b: seq<real>)
    requires x >= Sentinel
    ensures ValidMagnitudes(a + [x] + b) == ValidMagnitudes(a + b)
  {
    ValidMagnitudesConcat(a + [x], b);
    ValidMagnitudesConcat(a, [x]);
    ValidMagnitudesConcat(a, b);
    assert ValidMagnitudes([x]) == [] by {
      assert [x][1..] == [];
    }
  }

  /** A filter has no cut exactly when its column is missing (a `KeyError`
      on that name) or every entry of it is at or above the sentinel. */
  lemma FilterCutErrors(filter: string, cat: Catalog, p90: Percentile)
    requires DefinedOnNonEmpty(p90)
    ensures var name := ColumnOf(filter, cat);
      && (FilterCut(filter, cat, p90) == Err(KeyError(name)) <==> name !in cat.table.columns)
      && (FilterCut(filter, cat, p90) == Err(NoValidMagnitudes(filter)) <==>
            (name in cat.table.columns &&
             forall i :: 0 <= i < |cat.table.columns[name]| ==> cat.table.columns[name][i] >= Sentinel))
      && (FilterCut(filter, cat, p90).Ok? <==> name in cat.table.columns && exists i :: 0 <= i < |cat.table.columns[name]| && cat.table.columns[name][i] < Sentinel)
  {
    var name := ColumnOf(filter, cat);
    if name in cat.table.columns {
      var col := cat.table.columns[name];
      var kept := ValidMagnitudes(col);
      if |kept| > 0 {
        assert kept[0] in kept;
        var i :| 0 <= i < |col| && col[i] == kept[0];
      } else {
        forall i | 0 <= i < |col| ensures col[i] >= Sentinel {
          assert col[i] in col;
        }
      }
    }
  }

  // ---------------------------------------------------------------------
  // Lemmas about the cut vector

  /** A configured list of any length other than one is used unchanged; a
      single value is an offset added to every filter's percentile, giving
      one cut per filter in filter order. */
  lemma MagCutsCharacterized(astMaglimit: seq<real>, cat: Catalog, p90: Percentile)
    requires DefinedOnNonEmpty(p90)
    ensures |astMaglimit| != 1 ==> MagCuts(astMaglimit, cat, p90) == Ok(astMaglimit)
    ensures |astMaglimit| == 1 ==>
              (MagCuts(astMaglimit, cat, p90).Ok? <==>
                 forall k :: 0 <= k < |cat.filters| ==> FilterCut(cat.filters[k], cat, p90).Ok?)
    ensures |astMaglimit| == 1 && MagCuts(astMaglimit, cat, p90).Ok? ==>
              var cuts := MagCuts(astMaglimit, cat, p90).value;
              |cuts| == |cat.filters| &&
              forall k :: 0 <= k < |cat.filters| ==>
                cuts[k] == p90(ValidMagnitudes(cat.table.columns[ColumnOf(cat.filters[k], cat)])) + astMaglimit[0]
  {
    MinMagsAllOk(cat.filters, cat, p90);
  }

  /** A failing vector fails with the error of its first failing filter. */
  lemma {:induction false} MinMagsError(filters: seq<string>, cat: Catalog, p90: Percentile)
    requires DefinedOnNonEmpty(p90)
    ensures MinMags(filters, cat, p90).Err? ==>
              exists k :: 0 <= k < |filters| &&
                (forall j :: 0 <= j < k ==> FilterCut(filters[j], cat, p90).Ok?) &&
                FilterCut(filters[k], cat, p90) == Err(MinMags(filters, cat, p90).error)
    decreases |filters|
  {
    if filters != [] && FilterCut(filters[0], cat, p90).Ok? && MinMags(filters, cat, p90).Err? {
      MinMagsError(filters[1..], cat, p90);
      var k :| 0 <= k < |filters| - 1 &&
        (forall j :: 0 <= j < k ==> FilterCut(filters[1..][j], cat, p90).Ok?) &&
        FilterCut(filters[1..][k], cat, p90) == Err(MinMags(filters[1..], cat, p90).error);
      assert forall j :: 1 <= j < k + 1 ==> filters[j] == filters[1..][j - 1];
      assert FilterCut(filters[k + 1], cat, p90) == Err(MinMags(filters, cat, p90).error);
    }
  }

  /** When the cut derivation fails, a single offset was configured and the
      error is that of the first filter that has no cut. */
  lemma MagCutsFirstError(astMaglimit: seq<real>, cat: Catalog, p90: Percentile)
    requires DefinedOnNonEmpty(p90)
    requires MagCuts(astMaglimit, cat, p90).Err?
    ensures |astMaglimit| == 1
    ensures exists k :: 0 <= k < |cat.filters| &&
              (forall j :: 0 <= j < k ==> FilterCut(cat.filters[j], cat, p90).Ok?) &&
              FilterCut(cat.filters[k], cat, p90) == Err(MagCuts(astMaglimit, cat, p90).error)
  {
    MinMagsError(cat.filters, cat, p90);
  }

  /** Adding a sentinel entry to any column changes no cut. */
  lemma MagCutsIgnoreSentinel(astMaglimit: seq<real>, cat: Catalog, p90: Percentile,
                              name: string, a: seq<real>, x: real, b: seq<real>)
    requires DefinedOnNonEmpty(p90)
    requires name in cat.table.columns && cat.table.columns[name] == a + b
    requires x >= Sentinel
    ensures var withSentinel := cat.(table := cat.table.(columns := cat.table.columns[name := a + [x] + b]));
      MagCuts(astMaglimit, withSentinel, p90) == MagCuts(astMaglimit, cat, p90)
  {
    var withSentinel := cat.(table := cat.table.(columns := cat.table.columns[name := a + [x] + b]));
    SentinelIgnored(a, x, b);
    forall f | f in cat.filters
      ensures FilterCut(f, withSentinel, p90) == FilterCut(f, cat, p90)
    {
      assert ColumnOf(f, withSentinel) == ColumnOf(f, cat);
    }
    MinMagsCongruent(cat.filters, withSentinel, cat, p90);
  }
}
