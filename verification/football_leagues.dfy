/** The league alias table of football.js: a user-facing code, looked up after
    lower-casing, names a provider and the provider's own competition code. */
module Leagues {
  import opened Wrappers
  import opened Text

  datatype Api = OpenLiga | FootballData

  datatype League = League(api: Api, code: string)

  const Registry: map<string, League> := map[
    "bundesliga" := League(OpenLiga, "bl1"),
    "bl1" := League(OpenLiga, "bl1"),
    "bundesliga2" := League(OpenLiga, "bl2"),
    "bl2" := League(OpenLiga, "bl2"),
    "dfb" := League(OpenLiga, "dfbpokal"),
    "premier-league" := League(FootballData, "PL"),
    "pl" := League(FootballData, "PL"),
    "la-liga" := League(FootballData, "PD"),
    "pd" := League(FootballData, "PD"),
    "serie-a" := League(FootballData, "SA"),
    "sa" := League(FootballData, "SA"),
    "ligue-1" := League(FootballData, "FL1"),
    "fl1" := League(FootballData, "FL1"),
    "champions-league" := League(FootballData, "CL"),
    "cl" := League(FootballData, "CL"),
    "europa-league" := League(FootballData, "EL"),
    "el" := League(FootballData, "EL")
  ]

  /** `LEAGUES[code.toLowerCase()]`; None is the "Unknown league" case. */
  function Lookup(code: string): (r: Option<League>)
  {
    var key := Lower(code);
    if key in Registry then Some(Registry[key]) else None
  }

  /** The lookup ignores case: a code and its lower-cased form resolve alike. */
  lemma LookupCaseInsensitive(code: string)
    ensures Lookup(Lower(code)) == Lookup(code)
  {
    LowerIdempotent(code);
  }

  /** The aliases of one league resolve to the same entry, whatever their case. */
  lemma AliasesAgree(a: string, b: string)
    requires Lower(a) in {"bundesliga", "bl1"} && Lower(b) in {"bundesliga", "bl1"}
    ensures Lookup(a) == Lookup(b) == Some(League(OpenLiga, "bl1"))
  {
  }

  lemma PremierLeagueAliasesAgree(a: string, b: string)
    requires Lower(a) in {"premier-league", "pl"} && Lower(b) in {"premier-league", "pl"}
    ensures Lookup(a) == Lookup(b) == Some(League(FootballData, "PL"))
  {
  }

  /** Only the three German competitions are served by OpenLigaDB. */
  lemma OpenLigaCodes(code: string)
    ensures (Lookup(code).Some? && Lookup(code).value.api == OpenLiga) <==>
      Lower(code) in {"bundesliga", "bl1", "bundesliga2", "bl2", "dfb"}
  {
  }
}
