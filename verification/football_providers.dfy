/** The two provider clients of football.js: OpenLigaDB (season table, no key)
    and football-data.org (date-range query, API key). Each turns the provider's
    JSON into canonical `Match` records. The HTTP round trip is an oracle: a
    request goes in, a parsed body or a failure (network error, timeout,
    unparsable body) comes out. */
module Providers {
  import opened Wrappers
  import opened Matches

  /** Outcome of one HTTP fetch, or of a whole provider call: `Failed` is a
      thrown error. */
  datatype Fetch<+T> = Delivered(body: T) | Failed

  /** A JavaScript `Date#getMonth()` value. */
  type Month = m: int | 0 <= m < 12

  /** A string field is truthy when it is present and not empty. */
  predicate Truthy(s: Option<string>)
  {
    s.Some? && s.value != ""
  }

  /** `s || fallback` for a string field that may be absent. */
  function OrElse(s: Option<string>, fallback: string): (r: string)
    ensures Truthy(s) ==> r == s.value
    ensures !Truthy(s) ==> r == fallback
  {
    if Truthy(s) then s.value else fallback
  }

  // ---------------------------------------------------------------- season

  /** The default OpenLigaDB season: the year in which the current European
      season started, seasons starting in August (month index 7). */
  function DefaultSeason(year: int, month: Month): (season: int)
    ensures 0 <= (year - season) * 12 + month - 7 < 12
  {
    if month < 7 then year - 1 else year
  }

  /** The season rule is the only year with that property. */
  lemma DefaultSeasonUnique(year: int, month: Month, season: int)
    requires 0 <= (year - season) * 12 + month - 7 < 12
    ensures season == DefaultSeason(year, month)
  {
  }

  lemma DefaultSeasonExamples()
    ensures DefaultSeason(2025, 2) == 2024
    ensures DefaultSeason(2025, 8) == 2025
    ensures DefaultSeason(2025, 6) == 2024 && DefaultSeason(2025, 7) == 2025
  {
  }

  /** `if (!season) season = <default>`: an absent season, or season 0, is replaced. */
  function EffectiveSeason(season: Option<int>, year: int, month: Month): (r: int)
    ensures season.Some? && season.value != 0 ==> r == season.value
    ensures season.None? || season.value == 0 ==> r == DefaultSeason(year, month)
  {
    if season.None? || season.value == 0 then DefaultSeason(year, month) else season.value
  }

  // ---------------------------------------------------------------- OpenLigaDB

  datatype OpenLigaTeam = OpenLigaTeam(teamName: Option<string>)

  datatype OpenLigaResult = OpenLigaResult(pointsTeam1: Option<int>, pointsTeam2: Option<int>)

  /** One element of the OpenLigaDB array. The kickoff fields arrive already
      parsed to milliseconds; `matchDateTime` is the fallback when there is no
      UTC time. */
  datatype OpenLigaRecord = OpenLigaRecord(
    matchID: Option<int>,
    leagueName: Option<string>,
    team1: Option<OpenLigaTeam>,
    team2: Option<OpenLigaTeam>,
    matchDateTimeUTC: Option<int>,
    matchDateTime: int,
    matchIsFinished: Option<bool>,
    matchResults: Option<seq<OpenLigaResult>>)

  /** The parsed body: an array of records, or any other JSON value. */
  datatype OpenLigaBody = OpenLigaArray(records: seq<OpenLigaRecord>) | OpenLigaNotArray

  datatype OpenLigaRequest = OpenLigaRequest(leagueCode: string, season: int)

  /** `team?.teamName || 'TBD'`. */
  function OpenLigaTeamName(t: Option<OpenLigaTeam>): (r: string)
    ensures r != ""
    ensures t.Some? && Truthy(t.value.teamName) ==> r == t.value.teamName.value
    ensures t.None? || !Truthy(t.value.teamName) ==> r == Tbd
  {
    if t.Some? then OrElse(t.value.teamName, Tbd) else Tbd
  }

  /** `m.matchResults?.[1]`: the second result entry, the final score. */
  function FinalResult(m: OpenLigaRecord): (r: Option<OpenLigaResult>)
    ensures r.Some? <==> m.matchResults.Some? && |m.matchResults.value| > 1
    ensures r.Some? ==> r.value == m.matchResults.value[1]
  {
    if m.matchResults.Some? && |m.matchResults.value| > 1 then Some(m.matchResults.value[1]) else None
  }

  /** Canonical record of an OpenLigaDB match requested under `leagueCode`. */
  function NormalizeOpenLiga(m: OpenLigaRecord, leagueCode: string): (r: Match)
    ensures r.id == m.matchID
    ensures Truthy(m.leagueName) ==> r.competition == m.leagueName.value
    ensures !Truthy(m.leagueName) ==> r.competition == leagueCode
    ensures r.homeTeam == OpenLigaTeamName(m.team1) && r.awayTeam == OpenLigaTeamName(m.team2)
    ensures m.matchDateTimeUTC.Some? ==> r.date == m.matchDateTimeUTC.value
    ensures m.matchDateTimeUTC.None? ==> r.date == m.matchDateTime
    ensures IsFinished(r) <==> m.matchIsFinished == Some(true)
    ensures r.status == Some(Finished) || r.status == Some(Scheduled)
    ensures r.homeScore.Some? <==> FinalResult(m).Some? && FinalResult(m).value.pointsTeam1.Some?
    ensures r.homeScore.Some? ==> r.homeScore == FinalResult(m).value.pointsTeam1
    ensures r.awayScore.Some? <==> FinalResult(m).Some? && FinalResult(m).value.pointsTeam2.Some?
    ensures r.awayScore.Some? ==> r.awayScore == FinalResult(m).value.pointsTeam2
  {
    var final := FinalResult(m);
    Match(
      m.matchID,
      OrElse(m.leagueName, leagueCode),
      OpenLigaTeamName(m.team1),
      OpenLigaTeamName(m.team2),
      m.matchDateTimeUTC.GetOr(m.matchDateTime),
      Some(if m.matchIsFinished == Some(true) then Finished else Scheduled),
      if final.Some? then final.value.pointsTeam1 else None,
      if final.Some? then final.value.pointsTeam2 else None)
  }

  /** The shape every OpenLigaDB record normalises to (for a non-empty code). */
  predicate OpenLigaShaped(m: Match)
  {
    && m.competition != "" && m.homeTeam != "" && m.awayTeam != ""
    && (m.status == Some(Finished) || m.status == Some(Scheduled))
  }

  lemma NormalizeOpenLigaShaped(m: OpenLigaRecord, leagueCode: string)
    requires leagueCode != ""
    ensures OpenLigaShaped(NormalizeOpenLiga(m, leagueCode))
  {
  }

  /** An OpenLigaDB record that carries `m`; normalising it gives `m` back, so
      the mapping loses nothing a well-formed record states. */
  function EncodeOpenLiga(m: Match): (raw: OpenLigaRecord)
    requires OpenLigaShaped(m)
    ensures forall code :: NormalizeOpenLiga(raw, code) == m
  {
    OpenLigaRecord(
      m.id,
      Some(m.competition),
      Some(OpenLigaTeam(Some(m.homeTeam))),
      Some(OpenLigaTeam(Some(m.awayTeam))),
      Some(m.date),
      m.date,
      Some(IsFinished(m)),
      Some([OpenLigaResult(None, None), OpenLigaResult(m.homeScore, m.awayScore)]))
  }

  /** `fetchOpenLiga(leagueCode, season)`. A body that is not an array yields
      no matches; a failed fetch propagates as `Failed`. */
  function FetchOpenLiga(leagueCode: string, season: Option<int>, year: int, month: Month,
                         fetch: OpenLigaRequest -> Fetch<OpenLigaBody>): (r: Fetch<seq<Match>>)
    ensures var body := fetch(OpenLigaRequest(leagueCode, EffectiveSeason(season, year, month)));
      && (r.Failed? <==> body.Failed?)
      && (body.Delivered? && body.body.OpenLigaNotArray? ==> r == Delivered([]))
      && (body.Delivered? && body.body.OpenLigaArray? ==>
            && r.Delivered?
            && |r.body| == |body.body.records|
            && forall i :: 0 <= i < |r.body| ==>
                 r.body[i] == NormalizeOpenLiga(body.body.records[i], leagueCode))
  {
    match fetch(OpenLigaRequest(leagueCode, EffectiveSeason(season, year, month)))
    case Failed => Failed
    case Delivered(OpenLigaNotArray) => Delivered([])
    case Delivered(OpenLigaArray(records)) =>
      Delivered(seq(|records|, i requires 0 <= i < |records| => NormalizeOpenLiga(records[i], leagueCode)))
  }

  // ---------------------------------------------------------------- football-data.org

  datatype Named = Named(name: Option<string>)

  datatype ScorePair = ScorePair(home: Option<int>, away: Option<int>)

  datatype Score = Score(fullTime: Option<ScorePair>)

  /** One element of the `matches` array; `utcDate` arrives already parsed. */
  datatype FootballDataRecord = FootballDataRecord(
    id: Option<int>,
    competition: Option<Named>,
    homeTeam: Option<Named>,
    awayTeam: Option<Named>,
    utcDate: int,
    status: Option<string>,
    score: Option<Score>)

  /** The parsed body: an object whose `error`, `message` and `matches` fields
      may be absent; JSON `null`, on which reading a field throws; or any other
      value (number, string, boolean, array), whose fields all read as absent. */
  datatype FootballDataBody =
    | Envelope(error: Option<string>, message: Option<string>, matches: Option<seq<FootballDataRecord>>)
    | NullBody
    | FieldlessBody

  /** `?dateFrom=…&dateTo=…`, as day-start timestamps. */
  datatype DateRange = DateRange(from: int, to: int)

  datatype FootballDataRequest = FootballDataRequest(code: string, query: Option<DateRange>, token: string)

  /** The query string is appended only when both bounds are given. */
  function QueryOf(dateFrom: Option<int>, dateTo: Option<int>): (q: Option<DateRange>)
    ensures q.Some? <==> dateFrom.Some? && dateTo.Some?
    ensures q.Some? ==> q.value == DateRange(dateFrom.value, dateTo.value)
  {
    if dateFrom.Some? && dateTo.Some? then Some(DateRange(dateFrom.value, dateTo.value)) else None
  }

  /** `obj?.name || fallback`. */
  function NameOr(n: Option<Named>, fallback: string): (r: string)
    ensures n.Some? && Truthy(n.value.name) ==> r == n.value.name.value
    ensures n.None? || !Truthy(n.value.name) ==> r == fallback
  {
    if n.Some? then OrElse(n.value.name, fallback) else fallback
  }

  /** `m.score?.fullTime`. */
  function FullTime(m: FootballDataRecord): (r: Option<ScorePair>)
  {
    if m.score.Some? then m.score.value.fullTime else None
  }

  /** Canonical record of a football-data.org match requested under `code`. */
  function NormalizeFootballData(m: FootballDataRecord, code: string): (r: Match)
    ensures r.id == m.id && r.date == m.utcDate
    ensures r.status == m.status
    ensures m.competition.Some? && Truthy(m.competition.value.name) ==> r.competition == m.competition.value.name.value
    ensures m.competition.None? || !Truthy(m.competition.value.name) ==> r.competition == code
    ensures r.homeTeam == NameOr(m.homeTeam, Tbd) && r.awayTeam == NameOr(m.awayTeam, Tbd)
    ensures r.homeTeam != "" && r.awayTeam != ""
    ensures r.homeScore.Some? <==> FullTime(m).Some? && FullTime(m).value.home.Some?
    ensures r.homeScore.Some? ==> r.homeScore == FullTime(m).value.home
    ensures r.awayScore.Some? <==> FullTime(m).Some? && FullTime(m).value.away.Some?
    ensures r.awayScore.Some? ==> r.awayScore == FullTime(m).value.away
  {
    var fullTime := FullTime(m);
    Match(
      m.id,
      NameOr(m.competition, code),
      NameOr(m.homeTeam, Tbd),
      NameOr(m.awayTeam, Tbd),
      m.utcDate,
      m.status,
      if fullTime.Some? then fullTime.value.home else None,
      if fullTime.Some? then fullTime.value.away else None)
  }

  /** The shape every football-data.org record normalises to (for a non-empty code). */
  predicate FootballDataShaped(m: Match)
  {
    m.competition != "" && m.homeTeam != "" && m.awayTeam != ""
  }

  lemma NormalizeFootballDataShaped(m: FootballDataRecord, code: string)
    requires code != ""
    ensures FootballDataShaped(NormalizeFootballData(m, code))
  {
  }

  /** A football-data.org record that carries `m`; normalising it gives `m` back.
      Any status, including none, survives the trip. */
  function EncodeFootballData(m: Match): (raw: FootballDataRecord)
    requires FootballDataShaped(m)
    ensures forall code :: NormalizeFootballData(raw, code) == m
  {
    FootballDataRecord(
      m.id,
      Some(Named(Some(m.competition))),
      Some(Named(Some(m.homeTeam))),
      Some(Named(Some(m.awayTeam))),
      m.date,
      m.status,
      Some(Score(Some(ScorePair(m.homeScore, m.awayScore)))))
  }

  /** `fetchFootballData(code, dateFrom, dateTo)` with the API key as a
      parameter. Without a key nothing is fetched; an error envelope or a body
      without `matches` yields no matches. */
  function FetchFootballData(code: string, dateFrom: Option<int>, dateTo: Option<int>, apiKey: string,
                             fetch: FootballDataRequest -> Fetch<FootballDataBody>): (r: Fetch<seq<Match>>)
    ensures apiKey == "" ==> r == Delivered([])
    ensures apiKey != "" ==>
      var body := fetch(FootballDataRequest(code, QueryOf(dateFrom, dateTo), apiKey));
      && (r.Failed? <==> body.Failed? || body.body.NullBody?)
      && (body.Delivered? && body.body.FieldlessBody? ==> r == Delivered([]))
      && (body.Delivered? && body.body.Envelope? ==>
            var env := body.body;
            && r.Delivered?
            && (Truthy(env.error) || Truthy(env.message) || env.matches.None? ==> r.body == [])
            && (!Truthy(env.error) && !Truthy(env.message) && env.matches.Some? ==>
                  && |r.body| == |env.matches.value|
                  && forall i :: 0 <= i < |r.body| ==>
                       r.body[i] == NormalizeFootballData(env.matches.value[i], code)))
  {
    if apiKey == "" then Delivered([])
    else
      match fetch(FootballDataRequest(code, QueryOf(dateFrom, dateTo), apiKey))
      case Failed => Failed
      case Delivered(NullBody) => Failed
      case Delivered(FieldlessBody) => Delivered([])
      case Delivered(Envelope(error, message, matches)) =>
        if Truthy(error) || Truthy(message) then Delivered([])
        else
          var records := matches.GetOr([]);
          Delivered(seq(|records|, i requires 0 <= i < |records| => NormalizeFootballData(records[i], code)))
  }

  /** Without a key the result does not depend on the provider at all. */
  lemma NoKeyNoFetch(code: string, dateFrom: Option<int>, dateTo: Option<int>,
                     f1: FootballDataRequest -> Fetch<FootballDataBody>,
                     f2: FootballDataRequest -> Fetch<FootballDataBody>)
    ensures FetchFootballData(code, dateFrom, dateTo, "", f1) == FetchFootballData(code, dateFrom, dateTo, "", f2)
  {
  }
}
