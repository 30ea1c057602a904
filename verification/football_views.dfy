/** The five commands of football.js as queries over `getMatches`: each picks a
    league list and a date window from "now", then keeps the matches passing a
    filter. One parameterised `Query` carries the shared shape. The score part
    of `formatMatch` is here too. */
module Views {
  import opened Wrappers
  import opened Text
  import opened Decimal
  import opened Matches
  import opened Teams
  import opened Providers
  import opened Ordering
  import opened Leagues
  import opened Aggregator

  const DefaultTrio: seq<string> := ["bundesliga", "champions-league", "premier-league"]
  const DefaultPair: seq<string> := ["bundesliga", "champions-league"]
  const HighlightLeagues: seq<string> := ["bundesliga", "champions-league", "premier-league", "la-liga"]
  const WeekMs: int := 7 * DayMs

  /** How many highlights the briefing lists. */
  const BriefingCap: nat := 5

  /** `options.league ? [options.league] : defaults`. */
  function LeaguesOr(league: Option<string>, defaults: seq<string>): (r: seq<string>)
    ensures Truthy(league) ==> r == [league.value]
    ensures !Truthy(league) ==> r == defaults
  {
    if Truthy(league) then [league.value] else defaults
  }

  /** `r` is what filtering `all` by `keep` and then stable-sorting by kickoff
      gives: sorted, every copy that passes kept and no other, and at each
      kickoff the passing matches in their order in `all`. */
  ghost predicate Selection(r: seq<Match>, all: seq<Match>, keep: Match -> bool)
  {
    && SortedBy(r, DateOf)
    && (forall m :: multiset(r)[m] == if keep(m) then multiset(all)[m] else 0)
    && (forall d :: KeyFilter(r, DateOf, d) == Filter(KeyFilter(all, DateOf, d), keep))
  }

  /** A selection is unique: the contract of every view below fixes its result. */
  lemma SelectionUnique(r1: seq<Match>, r2: seq<Match>, all: seq<Match>, keep: Match -> bool)
    requires Selection(r1, all, keep) && Selection(r2, all, keep)
    ensures r1 == r2
  {
    SortedKeyFilterUnique(r1, r2, DateOf);
  }

  /** Filtering a stable sort of `collected` is a selection from `collected`. */
  lemma FilterSelection(all: seq<Match>, collected: seq<Match>, keep: Match -> bool)
    requires SortedBy(all, DateOf)
    requires multiset(all) == multiset(collected)
    requires forall d :: KeyFilter(all, DateOf, d) == KeyFilter(collected, DateOf, d)
    ensures Selection(Filter(all, keep), collected, keep)
  {
    FilterSorted(all, keep, DateOf);
    FilterCounts(all, keep);
    forall d
      ensures KeyFilter(Filter(all, keep), DateOf, d) == Filter(KeyFilter(collected, DateOf, d), keep)
    {
      KeyFilterOfFilter(all, keep, DateOf, d);
    }
  }

  /** Matches of `leagues` in the window that pass `keep`, in kickoff order,
      equal kickoffs in league order. */
  function Query(rule: WindowRule, leagues: seq<string>, dateFrom: int, dateTo: int, keep: Match -> bool, env: Env): (r: seq<Match>)
    ensures Selection(r, Collect(rule, leagues, Some(dateFrom), Some(dateTo), env), keep)
    ensures forall m :: m in r <==> m in GetMatches(rule, leagues, Some(dateFrom), Some(dateTo), env) && keep(m)
  {
    var all := GetMatches(rule, leagues, Some(dateFrom), Some(dateTo), env);
    FilterSelection(all, Collect(rule, leagues, Some(dateFrom), Some(dateTo), env), keep);
    FilterMembership(all, keep);
    Filter(all, keep)
  }

  predicate NotFinished(m: Match) { !IsFinished(m) }

  predicate Highlight(m: Match) { IsInteresting(m) && !IsFinished(m) }

  /** `upcoming`: the coming week, without finished matches. */
  function Upcoming(rule: WindowRule, league: Option<string>, now: int, env: Env): (r: seq<Match>)
    ensures Selection(r, Collect(rule, LeaguesOr(league, DefaultTrio), Some(DayStart(now)), Some(DayStart(now + WeekMs)), env), NotFinished)
    ensures forall m :: m in r ==> !IsFinished(m)
    ensures forall m :: m in r <==>
      m in GetMatches(rule, LeaguesOr(league, DefaultTrio), Some(DayStart(now)), Some(DayStart(now + WeekMs)), env)
      && !IsFinished(m)
  {
    Query(rule, LeaguesOr(league, DefaultTrio), DayStart(now), DayStart(now + WeekMs), NotFinished, env)
  }

  /** `today`: every match of the one-day window, whatever its status. */
  function TodayMatches(rule: WindowRule, league: Option<string>, now: int, env: Env): (r: seq<Match>)
    ensures SortedBy(r, DateOf)
    ensures multiset(r) == multiset(Collect(rule, LeaguesOr(league, DefaultTrio), Some(DayStart(now)), Some(DayStart(now)), env))
    ensures forall d :: KeyFilter(r, DateOf, d) == KeyFilter(Collect(rule, LeaguesOr(league, DefaultTrio), Some(DayStart(now)), Some(DayStart(now)), env), DateOf, d)
  {
    GetMatches(rule, LeaguesOr(league, DefaultTrio), Some(DayStart(now)), Some(DayStart(now)), env)
  }

  /** As written, `today` shows from an OpenLigaDB league only the kickoffs at
      exactly 00:00 UTC: anything else it shows came from a football-data.org
      league, whose window the server applies. */
  lemma TodayAsWrittenMidnightOnly(league: Option<string>, now: int, env: Env, m: Match)
    requires m in TodayMatches(AsWritten, league, now, env)
    ensures m.date == DayStart(now) ||
      exists i :: 0 <= i < |LeaguesOr(league, DefaultTrio)| && !IsOpenLigaCode(LeaguesOr(league, DefaultTrio)[i])
        && m in Contribution(FetchLeague(AsWritten, LeaguesOr(league, DefaultTrio)[i], Some(DayStart(now)), Some(DayStart(now)), env))
  {
    var codes := LeaguesOr(league, DefaultTrio);
    var day := Some(DayStart(now));
    GetMatchesMembership(AsWritten, codes, day, day, env, m);
    var i :| 0 <= i < |codes| && m in Contribution(FetchLeague(AsWritten, codes[i], day, day, env));
    if IsOpenLigaCode(codes[i]) {
      OneDayAsWrittenIsMidnight(codes[i], DayStart(now), env, m);
    }
  }

  /** Corrected, `today` keeps from an OpenLigaDB league exactly the table's
      kickoffs on the current UTC day. */
  lemma TodayCorrectedKeepsWholeDay(code: string, now: int, env: Env, m: Match)
    requires IsOpenLigaCode(code)
    requires OpenLigaTable(Lookup(code).value.code, env).Delivered?
    ensures m in Contribution(FetchLeague(Corrected, code, Some(DayStart(now)), Some(DayStart(now)), env)) <==>
      m in OpenLigaTable(Lookup(code).value.code, env).body && DayStart(m.date) == DayStart(now)
  {
    FetchLeagueOutcome(Corrected, code, Some(DayStart(now)), Some(DayStart(now)), env);
    InWindowByDay(m.date, DayStart(now), DayStart(now));
  }

  /** `results`: the past week (narrower default pair), finished matches only. */
  function Results(rule: WindowRule, league: Option<string>, now: int, env: Env): (r: seq<Match>)
    ensures Selection(r, Collect(rule, LeaguesOr(league, DefaultPair), Some(DayStart(now - WeekMs)), Some(DayStart(now)), env), IsFinished)
    ensures forall m :: m in r ==> IsFinished(m)
    ensures forall m :: m in r <==>
      m in GetMatches(rule, LeaguesOr(league, DefaultPair), Some(DayStart(now - WeekMs)), Some(DayStart(now)), env)
      && IsFinished(m)
  {
    Query(rule, LeaguesOr(league, DefaultPair), DayStart(now - WeekMs), DayStart(now), IsFinished, env)
  }

  /** `highlights`: the fixed four leagues over the coming week, interesting and not finished. */
  function Highlights(rule: WindowRule, now: int, env: Env): (r: seq<Match>)
    ensures Selection(r, Collect(rule, HighlightLeagues, Some(DayStart(now)), Some(DayStart(now + WeekMs)), env), Highlight)
    ensures forall m :: m in r ==> IsInteresting(m) && !IsFinished(m)
    ensures forall m :: m in r <==>
      m in GetMatches(rule, HighlightLeagues, Some(DayStart(now)), Some(DayStart(now + WeekMs)), env)
      && IsInteresting(m) && !IsFinished(m)
  {
    Query(rule, HighlightLeagues, DayStart(now), DayStart(now + WeekMs), Highlight, env)
  }

  /** The two groups the briefing prints. */
  datatype Briefing = Briefing(today: seq<Match>, week: seq<Match>)

  /** All interesting, unfinished matches of the default leagues this week. */
  function WeekHighlights(rule: WindowRule, now: int, env: Env): (r: seq<Match>)
    ensures Selection(r, Collect(rule, DefaultTrio, Some(DayStart(now)), Some(DayStart(now + WeekMs)), env), Highlight)
    ensures forall m :: m in r <==>
      m in GetMatches(rule, DefaultTrio, Some(DayStart(now)), Some(DayStart(now + WeekMs)), env)
      && IsInteresting(m) && !IsFinished(m)
  {
    Query(rule, DefaultTrio, DayStart(now), DayStart(now + WeekMs), Highlight, env)
  }

  /** Interesting matches of the default leagues today, whatever their status. */
  function TodayHighlights(rule: WindowRule, now: int, env: Env): (r: seq<Match>)
    ensures Selection(r, Collect(rule, DefaultTrio, Some(DayStart(now)), Some(DayStart(now)), env), IsInteresting)
    ensures forall m :: m in r <==>
      m in GetMatches(rule, DefaultTrio, Some(DayStart(now)), Some(DayStart(now)), env) && IsInteresting(m)
  {
    Query(rule, DefaultTrio, DayStart(now), DayStart(now), IsInteresting, env)
  }

  /** `briefing`: today's interesting matches, and the first five of the week's highlights. */
  function MakeBriefing(rule: WindowRule, now: int, env: Env): (b: Briefing)
    ensures b.today == TodayHighlights(rule, now, env)
    ensures |b.week| <= BriefingCap
    ensures b.week == Take(WeekHighlights(rule, now, env), BriefingCap)
  {
    Briefing(TodayHighlights(rule, now, env), Take(WeekHighlights(rule, now, env), BriefingCap))
  }

  /** Every match the briefing lists for the week is an interesting, unfinished
      match that `upcoming` shows with the default leagues. */
  lemma BriefingWeekWithinUpcoming(rule: WindowRule, now: int, env: Env, m: Match)
    requires m in MakeBriefing(rule, now, env).week
    ensures IsInteresting(m) && !IsFinished(m)
    ensures m in Upcoming(rule, None, now, env)
  {
    var week := WeekHighlights(rule, now, env);
    TakeMembership(week, BriefingCap, m);
    assert m in week;
    assert LeaguesOr(None, DefaultTrio) == DefaultTrio;
    var window := GetMatches(rule, DefaultTrio, Some(DayStart(now)), Some(DayStart(now + WeekMs)), env);
    assert m in window && IsInteresting(m) && !IsFinished(m);
  }

  /** The briefing's today group is part of what `today` shows with the default leagues. */
  lemma BriefingTodayWithinToday(rule: WindowRule, now: int, env: Env, m: Match)
    requires m in MakeBriefing(rule, now, env).today
    ensures m in TodayMatches(rule, None, now, env)
  {
    assert m in TodayHighlights(rule, now, env);
    assert LeaguesOr(None, DefaultTrio) == DefaultTrio;
    assert m in GetMatches(rule, DefaultTrio, Some(DayStart(now)), Some(DayStart(now)), env);
  }

  /** `upcoming` and `results` over the same leagues never share a match. */
  lemma UpcomingAndResultsDisjoint(rule: WindowRule, league: Option<string>, now: int, env: Env, m: Match)
    requires m in Upcoming(rule, league, now, env)
    ensures m !in Results(rule, league, now, env)
  {
  }

  // ---------------------------------------------------------------- score text

  /** `${score}` of a possibly-null score. */
  function ShowScore(s: Option<int>): (r: string)
    ensures ':' !in r
  {
    if s.None? then "null" else
      var t := ShowInt(s.value);
      assert forall i :: 0 <= i < |t| ==> t[i] != ':';
      t
  }

  /** The score part of `formatMatch`: `h:a` for a finished match, `vs` otherwise. */
  function ScoreText(m: Match): (r: string)
    ensures (':' in r) <==> IsFinished(m)
    ensures !IsFinished(m) ==> r == "vs"
  {
    if IsFinished(m) then
      var r := ShowScore(m.homeScore) + ":" + ShowScore(m.awayScore);
      assert r[|ShowScore(m.homeScore)|] == ':';
      r
    else "vs"
  }

  /** What a score text says: no score yet, or the two printed scores. */
  datatype ScoreLine = Versus | FinalScore(home: Option<int>, away: Option<int>)

  /** Inverse of `ShowScore`. */
  function ReadScore(s: string): (r: Option<Option<int>>)
  {
    if s == "null" then Some(None)
    else match ReadInt(s)
      case Some(v) => Some(Some(v))
      case None => None
  }

  lemma ShowScoreRoundTrip(s: Option<int>)
    ensures ReadScore(ShowScore(s)) == Some(s)
  {
    if s.Some? {
      ShowIntRoundTrip(s.value);
      var t := ShowInt(s.value);
      assert t != "null" by {
        assert t[0] == '-' || IsDigit(t[0]);
      }
    }
  }

  /** Reads a score text back: `vs`, or two scores around the first `:`. */
  function ReadScoreText(s: string): (r: Option<ScoreLine>)
  {
    if s == "vs" then Some(Versus)
    else
      var k := IndexOf(s, ':');
      if k == |s| then None
      else match (ReadScore(s[..k]), ReadScore(s[k + 1..]))
        case (Some(h), Some(a)) => Some(FinalScore(h, a))
        case _ => None
  }

  /** The score text determines the status class and, when finished, both scores. */
  lemma ScoreTextRoundTrip(m: Match)
    ensures ReadScoreText(ScoreText(m)) ==
      Some(if IsFinished(m) then FinalScore(m.homeScore, m.awayScore) else Versus)
  {
    if IsFinished(m) {
      var h := ShowScore(m.homeScore);
      var a := ShowScore(m.awayScore);
      var t := ScoreText(m);
      assert t == h + ":" + a;
      assert t != "vs" by {
        assert ':' in t;
      }
      assert IndexOf(t, ':') == |h| by {
        var k := IndexOf(t, ':');
        assert t[|h|] == ':';
      }
      assert t[..|h|] == h && t[|h| + 1..] == a;
      ShowScoreRoundTrip(m.homeScore);
      ShowScoreRoundTrip(m.awayScore);
    }
  }
}
