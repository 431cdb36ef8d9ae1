/**
 * The DRS (data reference syntax) tables of both tool sets: how many
 * dot-separated facets a dataset identifier has, and which values some
 * positions may take. `Cmip6Tools` is the single table of the older CMIP6
 * tools; `Projects` holds the per-project tables of the newer MIP tools.
 */
module DrsConfigs {

  datatype DrsConfig = DrsConfig(numFacets: nat, allowed: map<nat, seq<string>>)

  /**
   * A table the plausibility test can use without an index error: at
   * least one facet (the last is the version), and every constrained
   * position inside the identifier.
   */
  predicate WellFormed(c: DrsConfig)
  {
    c.numFacets >= 1 && forall p :: p in c.allowed ==> p < c.numFacets
  }

  /** The activities a CMIP6 identifier may name in its second facet. */
  const Activities: seq<string> := [
    "AerChemMIP", "C4MIP", "CDRMIP", "CFMIP", "CMIP", "CORDEX", "DAMIP", "DCPP", "DynVarMIP",
    "FAFMIP", "GMMIP", "GeoMIP", "HighResMIP", "ISMIP6", "LS3MIP", "LUMIP", "OMIP", "PAMIP",
    "PMIP", "RFMIP", "SIMIP", "ScenarioMIP", "VIACSAB", "VolMIP"]

  /** The CORDEX domains a CORDEX identifier may name in its third facet. */
  const CordexDomains: seq<string> := [
    "AFR-44", "AFR-44i", "ANT-44", "ANT-44i", "ARC-44", "ARC-44i", "AUS-44", "AUS-44i", "CAM-44",
    "CAM-44i", "CAS-44", "CAS-44i", "EAS-44", "EAS-44i", "EUR-11", "EUR-11i", "EUR-44", "EUR-44i", "MED-44",
    "MED-44i", "MNA-22", "MNA-22i", "MNA-44", "MNA-44i", "NAM-44", "NAM-44i", "SAM-44", "SAM-44i", "SAM-20",
    "SAM-20i", "WAS-44", "WAS-44i"]

  /** The table of the older CMIP6 tools. */
  const Cmip6Tools: DrsConfig := DrsConfig(10, map[0 := ["CMIP6"], 1 := Activities])

  datatype Project = Project(chain: string, drs: DrsConfig)

  /** The projects the newer MIP tools know, with their processing chains. */
  const Projects: map<string, Project> := map[
    "CMIP6" := Project("CMIP6-fromdisk", DrsConfig(10, map[0 := ["CMIP6"], 1 := Activities])),
    "PRIMAVERA" := Project("PRIMAVERA-fromdisk", DrsConfig(10, map[0 := ["PRIMAVERA"], 1 := Activities + ["primWP5"]])),
    "CORDEX" := Project("CORDEX-fromdisk", DrsConfig(12, map[0 := ["cordex"], 2 := CordexDomains]))]

  /** Every shipped table is well formed, and the newer CMIP6 table is the older one. */
  lemma ConfigsWellFormed()
    ensures WellFormed(Cmip6Tools)
    ensures forall k :: k in Projects ==> WellFormed(Projects[k].drs)
    ensures "CMIP6" in Projects && Projects["CMIP6"].drs == Cmip6Tools
  {
  }
}
