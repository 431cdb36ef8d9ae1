/**
 * `DatasetDRS` of the MIP tools: whether a list of facets, a dotted
 * dataset identifier or a directory path looks like a dataset of a
 * project, for the project's DRS table.
 */
module DatasetDrs {
  import opened Wrappers
  import opened Text
  import opened PosixPath
  import opened DrsConfigs

  /** A version facet: `v` and one or more decimal digits. */
  predicate VersionShape(val: string)
  {
    |val| >= 2 && val[0] == 'v' && AllDigits(val[1..])
  }

  /**
   * `_is_version_number_facet`: the pattern `^v[0-9]+$` under `re.match`,
   * where `$` also matches just before one final newline.
   */
  predicate IsVersionNumberFacet(val: string)
  {
    var body := if |val| > 0 && val[|val| - 1] == '\n' then val[..|val| - 1] else val;
    VersionShape(body)
  }

  /**
   * Without a newline an accepted facet is exactly `v` and digits; a
   * version followed by one newline is accepted as well; no accepted facet
   * holds a `.` or a `/`.
   */
  lemma VersionNumberFacetSpec(val: string)
    ensures '\n' !in val ==> (IsVersionNumberFacet(val) <==> VersionShape(val))
    ensures VersionShape(val) ==> IsVersionNumberFacet(val) && IsVersionNumberFacet(val + "\n")
    ensures IsVersionNumberFacet(val) ==> val[0] == 'v' && '.' !in val && '/' !in val
  {
    if '\n' !in val && |val| > 0 {
      assert val[|val| - 1] in val;
    }
    if VersionShape(val) {
      var w := val + "\n";
      assert w[..|w| - 1] == val;
      assert val[|val| - 1] != '\n' by {
        assert val[|val| - 1] == val[1..][|val| - 2];
      }
    }
    if IsVersionNumberFacet(val) {
      var body := if |val| > 0 && val[|val| - 1] == '\n' then val[..|val| - 1] else val;
      forall i | 0 <= i < |val| ensures val[i] != '.' && val[i] != '/' {
        if i < |body| {
          assert val[i] == body[i];
          if i > 0 {
            assert body[i] == body[1..][i - 1];
          }
        }
      }
    }
  }

  /**
   * `_plausible_facets`: the configured number of facets, none empty,
   * each constrained position holding one of its allowed values, and a
   * version as the last facet.
   */
  predicate PlausibleFacets(c: DrsConfig, facets: seq<string>)
    requires WellFormed(c)
  {
    && |facets| == c.numFacets
    && (forall i :: 0 <= i < |facets| ==> facets[i] != "")
    && (forall p :: p in c.allowed ==> facets[p] in c.allowed[p])
    && IsVersionNumberFacet(facets[|facets| - 1])
  }

  /** `plausible_dataset_id`: the facets are the pieces between dots. */
  predicate PlausibleDatasetId(c: DrsConfig, datasetId: string)
    requires WellFormed(c)
  {
    PlausibleFacets(c, Split(datasetId, '.'))
  }

  /** The last `num_facets` elements of the normalised path, or all of them when there are fewer. */
  function DirFacets(c: DrsConfig, dirname: string): (facets: seq<string>)
    ensures |facets| <= c.numFacets
    ensures forall i :: 0 <= i < |facets| ==> '/' !in facets[i]
  {
    var elements := Split(Normpath(dirname), '/');
    if |elements| < c.numFacets then elements else elements[|elements| - c.numFacets..]
  }

  /** `dir_to_dataset_id`: the dotted join of the trailing facets, when they are plausible. */
  function DirToDatasetId(c: DrsConfig, dirname: string): (r: Option<string>)
    requires WellFormed(c)
    ensures r.Some? <==> |Split(Normpath(dirname), '/')| >= c.numFacets && PlausibleFacets(c, DirFacets(c, dirname))
  {
    var elements := Split(Normpath(dirname), '/');
    if |elements| < c.numFacets then None
    else
      var facets := elements[|elements| - c.numFacets..];
      if PlausibleFacets(c, facets) then Some(Join(facets, '.')) else None
  }

  predicate NoDots(facets: seq<string>)
  {
    forall i :: 0 <= i < |facets| ==> '.' !in facets[i]
  }

  /**
   * Facets without dots, joined with dots, split back into themselves; so
   * plausible facets make a plausible identifier, and a plausible
   * identifier is the join of its own plausible facets.
   */
  lemma PlausibleIdOfFacets(c: DrsConfig, facets: seq<string>)
    requires WellFormed(c)
    requires PlausibleFacets(c, facets) && NoDots(facets)
    ensures Split(Join(facets, '.'), '.') == facets
    ensures PlausibleDatasetId(c, Join(facets, '.'))
  {
    SplitJoin(facets, '.');
  }

  /**
   * An identifier read from a directory whose facets hold no dot is
   * plausible, and splitting it gives the directory's trailing elements.
   */
  lemma DirIdRoundTrip(c: DrsConfig, dirname: string)
    requires WellFormed(c)
    requires DirToDatasetId(c, dirname).Some? && NoDots(DirFacets(c, dirname))
    ensures PlausibleDatasetId(c, DirToDatasetId(c, dirname).value)
    ensures Split(DirToDatasetId(c, dirname).value, '.') == DirFacets(c, dirname)
  {
    PlausibleIdOfFacets(c, DirFacets(c, dirname));
  }

  /**
   * The directory `/base/.../f1/.../fn` built from plausible facets below
   * clean base components is mapped to the identifier `f1.....fn`; when
   * the facets are not plausible it is mapped to nothing.
   */
  lemma DirOfFacets(c: DrsConfig, base: seq<string>, facets: seq<string>)
    requires WellFormed(c)
    requires AllClean(base) && |facets| == c.numFacets && NoDots(facets)
    requires forall i :: 0 <= i < |facets| ==> facets[i] != "" && '/' !in facets[i]
    ensures DirToDatasetId(c, "/" + Join(base + facets, '/'))
         == if PlausibleFacets(c, facets) then Some(Join(facets, '.')) else None
  {
    var cs := base + facets;
    assert AllClean(cs) by {
      forall i | 0 <= i < |cs| ensures CleanComponent(cs[i]) {
        if i >= |base| {
          assert cs[i] == facets[i - |base|];
          assert cs[i][0] in cs[i];
        }
      }
    }
    var path := "/" + Join(cs, '/');
    NormpathRooted(cs);
    SplitRooted(cs);
    var elements := [""] + cs;
    assert elements[|elements| - c.numFacets..] == facets;
  }
}
