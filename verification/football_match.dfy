/** The canonical match record both football providers are normalised into. */
module Matches {
  import opened Wrappers

  /** `date` is the kickoff instant in milliseconds since the Unix epoch.
      `status` is passed through from the provider (football-data may omit it);
      the scores are `null` (None) until a provider reports them. */
  datatype Match = Match(
    id: Option<int>,
    competition: string,
    homeTeam: string,
    awayTeam: string,
    date: int,
    status: Option<string>,
    homeScore: Option<int>,
    awayScore: Option<int>)

  const Finished: string := "FINISHED"
  const Scheduled: string := "SCHEDULED"
  const Tbd: string := "TBD"

  /** `m.status === 'FINISHED'`. */
  predicate IsFinished(m: Match)
  {
    m.status == Some(Finished)
  }

  function DateOf(m: Match): (d: int) { m.date }
}
