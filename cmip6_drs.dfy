/**
 * The module-level DRS functions of the older CMIP6 tools. They are the
 * MIP tools' `DatasetDRS` applied to the fixed CMIP6 table, so they are
 * defined through it, and the lemmas below spell out what that table
 * demands.
 */
module Cmip6Drs {
  import opened Wrappers
  import opened Text
  import opened PosixPath
  import opened DrsConfigs
  import DatasetDrs

  /** `plausible_facets`. */
  predicate PlausibleFacets(facets: seq<string>)
  {
    ConfigsWellFormed();
    DatasetDrs.PlausibleFacets(Cmip6Tools, facets)
  }

  /** `plausible_dataset_id`. */
  predicate PlausibleDatasetId(datasetId: string)
  {
    PlausibleFacets(Split(datasetId, '.'))
  }

  /** `dir_to_dataset_id`. */
  function DirToDatasetId(dirname: string): Option<string>
  {
    ConfigsWellFormed();
    DatasetDrs.DirToDatasetId(Cmip6Tools, dirname)
  }

  /**
   * Exactly ten non-empty facets, `CMIP6` first, a known activity second,
   * and a version last (`v` and digits, or that and one newline).
   */
  lemma PlausibleFacetsSpec(facets: seq<string>)
    ensures PlausibleFacets(facets) <==>
      && |facets| == 10
      && (forall i :: 0 <= i < 10 ==> facets[i] != "")
      && facets[0] == "CMIP6" && facets[1] in Activities
      && DatasetDrs.IsVersionNumberFacet(facets[9])
  {
  }

  /**
   * A directory yields an identifier exactly when its normalised path has
   * at least ten elements and the last ten are plausible; the identifier
   * is then those ten joined with dots.
   */
  lemma DirToDatasetIdSpec(dirname: string)
    ensures var elements := Split(Normpath(dirname), '/');
      var r := DirToDatasetId(dirname);
      && (r.Some? <==> |elements| >= 10 && PlausibleFacets(elements[|elements| - 10..]))
      && (r.Some? ==> r.value == Join(elements[|elements| - 10..], '.'))
  {
    ConfigsWellFormed();
  }

  /** A directory's identifier, when its facets hold no dot, is a plausible identifier with those facets. */
  lemma DirIdRoundTrip(dirname: string)
    requires DirToDatasetId(dirname).Some?
    ensures var elements := Split(Normpath(dirname), '/');
      DatasetDrs.NoDots(elements[|elements| - 10..]) ==>
        PlausibleDatasetId(DirToDatasetId(dirname).value)
        && Split(DirToDatasetId(dirname).value, '.') == elements[|elements| - 10..]
  {
    ConfigsWellFormed();
    DirToDatasetIdSpec(dirname);
    var elements := Split(Normpath(dirname), '/');
    if DatasetDrs.NoDots(elements[|elements| - 10..]) {
      DatasetDrs.DirIdRoundTrip(Cmip6Tools, dirname);
    }
  }
}
