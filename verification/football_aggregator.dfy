/** `getMatches` of football.js: resolve each league code, fetch it from its
    provider, window OpenLigaDB results on the client, concatenate in league
    order and stable-sort by kickoff. */
module Aggregator {
  import opened Wrappers
  import opened Matches
  import opened Leagues
  import opened Providers
  import opened Ordering
  import opened Text

  const DayMs: int := 24 * 60 * 60 * 1000

  /** `new Date('2100-01-01')`, the default upper bound. */
  const FarFuture: int := 4102444800000

  /** Start of the UTC day holding instant `t`: the instant `new Date(formatDate(t))`
      denotes. Dafny's division rounds down, as the calendar does. */
  function DayStart(t: int): (r: int)
    ensures r <= t < r + DayMs
    ensures r % DayMs == 0
  {
    t / DayMs * DayMs
  }

  /** The OpenLigaDB window test as written: `m.date >= from && m.date <= to`,
      with `to` the START of the last day. */
  predicate InWindowAsWritten(date: int, dateFrom: Option<int>, dateTo: Option<int>)
  {
    dateFrom.GetOr(0) <= date <= dateTo.GetOr(FarFuture)
  }

  /** The window test as intended: every instant of the last day is inside. */
  predicate InWindow(date: int, dateFrom: Option<int>, dateTo: Option<int>)
  {
    dateFrom.GetOr(0) <= date < dateTo.GetOr(FarFuture) + DayMs
  }

  /** A kickoff the as-written filter drops but the corrected one may keep:
      later than midnight at the start of the last day, with some bound given. */
  predicate LateOnLastDay(m: Match, dateFrom: Option<int>, dateTo: Option<int>)
  {
    (dateFrom.Some? || dateTo.Some?) && dateTo.GetOr(FarFuture) < m.date
  }

  /** The as-written test as a predicate on matches. */
  function AsWrittenTest(dateFrom: Option<int>, dateTo: Option<int>): (keep: Match -> bool)
  {
    (m: Match) => InWindowAsWritten(m.date, dateFrom, dateTo)
  }

  /** The corrected test as a predicate on matches. */
  function CorrectedTest(dateFrom: Option<int>, dateTo: Option<int>): (keep: Match -> bool)
  {
    (m: Match) => InWindow(m.date, dateFrom, dateTo)
  }

  /** The filter of football.js lines 163-167, applied only when some bound is
      given: every copy inside the window survives, in input order. */
  function WindowFilterAsWritten(ms: seq<Match>, dateFrom: Option<int>, dateTo: Option<int>): (r: seq<Match>)
    ensures dateFrom.None? && dateTo.None? ==> r == ms
    ensures forall m :: m in r <==> m in ms && ((dateFrom.None? && dateTo.None?) || InWindowAsWritten(m.date, dateFrom, dateTo))
    ensures forall m :: (multiset(r)[m] ==
      if (dateFrom.None? && dateTo.None?) || InWindowAsWritten(m.date, dateFrom, dateTo) then multiset(ms)[m] else 0)
    ensures Subsequence(r, ms)
  {
    if dateFrom.Some? || dateTo.Some? then
      FilterMembership(ms, AsWrittenTest(dateFrom, dateTo));
      FilterSubsequence(ms, AsWrittenTest(dateFrom, dateTo));
      FilterCounts(ms, AsWrittenTest(dateFrom, dateTo));
      Filter(ms, AsWrittenTest(dateFrom, dateTo))
    else
      SubsequenceRefl(ms);
      ms
  }

  /** The corrected filter: as above, with the whole last day inside. */
  function WindowFilter(ms: seq<Match>, dateFrom: Option<int>, dateTo: Option<int>): (r: seq<Match>)
    ensures dateFrom.None? && dateTo.None? ==> r == ms
    ensures forall m :: m in r <==> m in ms && ((dateFrom.None? && dateTo.None?) || InWindow(m.date, dateFrom, dateTo))
    ensures forall m :: (multiset(r)[m] ==
      if (dateFrom.None? && dateTo.None?) || InWindow(m.date, dateFrom, dateTo) then multiset(ms)[m] else 0)
    ensures Subsequence(r, ms)
  {
    if dateFrom.Some? || dateTo.Some? then
      FilterMembership(ms, CorrectedTest(dateFrom, dateTo));
      FilterSubsequence(ms, CorrectedTest(dateFrom, dateTo));
      FilterCounts(ms, CorrectedTest(dateFrom, dateTo));
      Filter(ms, CorrectedTest(dateFrom, dateTo))
    else
      SubsequenceRefl(ms);
      ms
  }

  /** Keeps the kickoffs that are not late on the last day. */
  function NotLateTest(dateFrom: Option<int>, dateTo: Option<int>): (keep: Match -> bool)
  {
    (m: Match) => !LateOnLastDay(m, dateFrom, dateTo)
  }

  /** The two filters differ by the kickoffs after the as-written upper bound,
      which is midnight at the START of the last day: as written is the
      corrected result without them. */
  lemma WindowFiltersRelated(ms: seq<Match>, dateFrom: Option<int>, dateTo: Option<int>)
    ensures WindowFilterAsWritten(ms, dateFrom, dateTo) == Filter(WindowFilter(ms, dateFrom, dateTo), NotLateTest(dateFrom, dateTo))
  {
    var late := NotLateTest(dateFrom, dateTo);
    if dateFrom.Some? || dateTo.Some? {
      var corrected := CorrectedTest(dateFrom, dateTo);
      var asWritten := AsWrittenTest(dateFrom, dateTo);
      forall x | x in ms
        ensures asWritten(x) == (corrected(x) && late(x))
      {
        AsWrittenIsCorrectedNotLate(x, dateFrom, dateTo);
      }
      FilterFilter(ms, corrected, late, asWritten);
    } else {
      FilterAll(ms, late);
    }
  }

  /** Pointwise: with some bound given, the as-written test is the corrected
      test minus the late kickoffs. */
  lemma AsWrittenIsCorrectedNotLate(m: Match, dateFrom: Option<int>, dateTo: Option<int>)
    requires dateFrom.Some? || dateTo.Some?
    ensures InWindowAsWritten(m.date, dateFrom, dateTo) <==>
      InWindow(m.date, dateFrom, dateTo) && !LateOnLastDay(m, dateFrom, dateTo)
  {
  }

  /** Both bounds are inclusive: a fixture at exactly 00:00 of either boundary day is kept. */
  lemma WindowBoundsInclusive(dateFrom: int, dateTo: int)
    requires dateFrom <= dateTo
    ensures InWindow(dateFrom, Some(dateFrom), Some(dateTo)) && InWindow(dateTo, Some(dateFrom), Some(dateTo))
    ensures InWindowAsWritten(dateFrom, Some(dateFrom), Some(dateTo)) && InWindowAsWritten(dateTo, Some(dateFrom), Some(dateTo))
  {
  }

  /** With day-start bounds the corrected test keeps exactly the fixtures whose
      kickoff day lies between the two boundary days. */
  lemma InWindowByDay(date: int, dateFrom: int, dateTo: int)
    requires dateFrom % DayMs == 0 && dateTo % DayMs == 0
    ensures InWindow(date, Some(dateFrom), Some(dateTo)) <==> dateFrom <= DayStart(date) <= dateTo
  {
    var d := DayStart(date);
    if dateFrom <= date && d < dateFrom {
      DayAligned(dateFrom, d);
    }
    if date < dateTo + DayMs && dateTo < d {
      DayAligned(dateTo, d);
    }
  }

  /** Two distinct day starts are at least a day apart. */
  lemma DayAligned(a: int, b: int)
    requires a % DayMs == 0 && b % DayMs == 0 && b < a
    ensures b + DayMs <= a
  {
    assert a == a / DayMs * DayMs && b == b / DayMs * DayMs;
    assert b / DayMs < a / DayMs;
    assert (a / DayMs - b / DayMs) * DayMs >= DayMs;
  }

  /** 2025-03-15T00:00:00Z. */
  const March15: int := 1741996800000

  /** As written, a one-day window (the `today` view) drops a 15:30 kickoff on
      that very day; the corrected filter keeps it. */
  lemma AsWrittenDropsAfternoonKickoff(m: Match)
    requires m.date == March15 + 15 * 60 * 60 * 1000 + 30 * 60 * 1000
    ensures WindowFilterAsWritten([m], Some(March15), Some(March15)) == []
    ensures WindowFilter([m], Some(March15), Some(March15)) == [m]
  {
    assert !InWindowAsWritten(m.date, Some(March15), Some(March15));
    assert InWindow(m.date, Some(March15), Some(March15));
  }

  // ---------------------------------------------------------------- aggregation

  /** Which OpenLigaDB window test the aggregator applies: the one football.js
      has (`AsWritten`), or the whole-last-day correction (`Corrected`). */
  datatype WindowRule = AsWritten | Corrected

  /** Everything the aggregator consults besides its arguments: the API key,
      the local calendar year and month (for the season), and the two fetch oracles. */
  datatype Env = Env(
    apiKey: string,
    localYear: int,
    localMonth: Month,
    openLiga: OpenLigaRequest -> Fetch<OpenLigaBody>,
    footballData: FootballDataRequest -> Fetch<FootballDataBody>)

  /** What one league code of the loop ends in: skipped as unknown, caught as a
      failed fetch, or a list of matches. */
  datatype LeagueOutcome = UnknownLeague | FetchFailed | Fetched(matches: seq<Match>)

  /** The code names an OpenLigaDB competition. */
  predicate IsOpenLigaCode(code: string)
  {
    Lookup(code).Some? && Lookup(code).value.api == OpenLiga
  }

  /** The season table OpenLigaDB returns for the code's competition. */
  function OpenLigaTable(native: string, env: Env): (r: Fetch<seq<Match>>)
  {
    FetchOpenLiga(native, None, env.localYear, env.localMonth, env.openLiga)
  }

  /** One iteration of the loop in football.js lines 151-175. */
  function FetchLeague(rule: WindowRule, code: string, dateFrom: Option<int>, dateTo: Option<int>, env: Env): (r: LeagueOutcome)
    ensures r.UnknownLeague? <==> Lookup(code).None?
  {
    match Lookup(code)
    case None => UnknownLeague
    case Some(League(OpenLiga, native)) =>
      (match OpenLigaTable(native, env)
       case Failed => FetchFailed
       case Delivered(ms) =>
         Fetched(if rule == AsWritten then WindowFilterAsWritten(ms, dateFrom, dateTo) else WindowFilter(ms, dateFrom, dateTo)))
    case Some(League(FootballData, native)) =>
      (match FetchFootballData(native, dateFrom, dateTo, env.apiKey, env.footballData)
       case Failed => FetchFailed
       case Delivered(ms) => Fetched(ms))
  }

  /** What each provider's outcome makes of one code: a failed fetch is
      caught, football-data.org matches pass unchanged, and OpenLigaDB matches
      pass through the rule's window test in their table order. */
  lemma FetchLeagueOutcome(rule: WindowRule, code: string, dateFrom: Option<int>, dateTo: Option<int>, env: Env)
    ensures Lookup(code).Some? && Lookup(code).value.api == FootballData ==>
      var o := FetchLeague(rule, code, dateFrom, dateTo, env);
      var f := FetchFootballData(Lookup(code).value.code, dateFrom, dateTo, env.apiKey, env.footballData);
      && (o.FetchFailed? <==> f.Failed?)
      && (f.Delivered? ==> o == Fetched(f.body))
    ensures IsOpenLigaCode(code) ==>
      var o := FetchLeague(rule, code, dateFrom, dateTo, env);
      var f := OpenLigaTable(Lookup(code).value.code, env);
      && (o.FetchFailed? <==> f.Failed?)
      && (f.Delivered? ==> o.Fetched? && Subsequence(o.matches, f.body))
      && (f.Delivered? && rule == AsWritten ==> forall m :: m in o.matches <==>
            m in f.body && ((dateFrom.None? && dateTo.None?) || InWindowAsWritten(m.date, dateFrom, dateTo)))
      && (f.Delivered? && rule == Corrected ==> forall m :: m in o.matches <==>
            m in f.body && ((dateFrom.None? && dateTo.None?) || InWindow(m.date, dateFrom, dateTo)))
  {
  }

  /** The matches one code adds to `allMatches`. */
  function Contribution(o: LeagueOutcome): (r: seq<Match>)
    ensures !o.Fetched? ==> r == []
    ensures o.Fetched? ==> r == o.matches
  {
    if o.Fetched? then o.matches else []
  }

  /** The contribution of each code, for one window and environment. */
  function ContributionOf(rule: WindowRule, dateFrom: Option<int>, dateTo: Option<int>, env: Env): (f: string -> seq<Match>)
  {
    code => Contribution(FetchLeague(rule, code, dateFrom, dateTo, env))
  }

  /** `allMatches` after the loop: the contributions in league order. */
  function Collect(rule: WindowRule, codes: seq<string>, dateFrom: Option<int>, dateTo: Option<int>, env: Env): (r: seq<Match>)
  {
    FlatMap(codes, ContributionOf(rule, dateFrom, dateTo, env))
  }

  /** `getMatches(leagueCodes, dateFrom, dateTo)`: sorted by kickoff, a
      permutation of the league-ordered contributions, and stable on equal kickoffs. */
  function GetMatches(rule: WindowRule, codes: seq<string>, dateFrom: Option<int>, dateTo: Option<int>, env: Env): (r: seq<Match>)
    ensures SortedBy(r, DateOf)
    ensures multiset(r) == multiset(Collect(rule, codes, dateFrom, dateTo, env))
    ensures forall d :: KeyFilter(r, DateOf, d) == KeyFilter(Collect(rule, codes, dateFrom, dateTo, env), DateOf, d)
  {
    var all := Collect(rule, codes, dateFrom, dateTo, env);
    SortBySorted(all, DateOf);
    forall d
      ensures KeyFilter(SortBy(all, DateOf), DateOf, d) == KeyFilter(all, DateOf, d)
    {
      SortByStable(all, DateOf, d);
    }
    SortBy(all, DateOf)
  }

  /** The contract of `GetMatches` fixes its result: any sorted sequence with
      the same run of matches at every kickoff is that result. */
  lemma GetMatchesDetermined(rule: WindowRule, codes: seq<string>, dateFrom: Option<int>, dateTo: Option<int>, env: Env, r: seq<Match>)
    requires SortedBy(r, DateOf)
    requires forall d :: KeyFilter(r, DateOf, d) == KeyFilter(Collect(rule, codes, dateFrom, dateTo, env), DateOf, d)
    ensures r == GetMatches(rule, codes, dateFrom, dateTo, env)
  {
    SortedKeyFilterUnique(r, GetMatches(rule, codes, dateFrom, dateTo, env), DateOf);
  }

  /** The result is determined by the concatenated contributions. */
  lemma SameCollectSameMatches(r1: WindowRule, c1: seq<string>, r2: WindowRule, c2: seq<string>,
                               dateFrom: Option<int>, dateTo: Option<int>, env: Env)
    requires Collect(r1, c1, dateFrom, dateTo, env) == Collect(r2, c2, dateFrom, dateTo, env)
    ensures GetMatches(r1, c1, dateFrom, dateTo, env) == GetMatches(r2, c2, dateFrom, dateTo, env)
  {
  }

  /** A code that contributes nothing (unknown, or its fetch failed) can be
      removed without changing the result: the other codes still run. */
  lemma SilentCodeIsSkipped(rule: WindowRule, a: seq<string>, code: string, b: seq<string>,
                            dateFrom: Option<int>, dateTo: Option<int>, env: Env)
    requires Contribution(FetchLeague(rule, code, dateFrom, dateTo, env)) == []
    ensures GetMatches(rule, a + [code] + b, dateFrom, dateTo, env) == GetMatches(rule, a + b, dateFrom, dateTo, env)
  {
    var f := ContributionOf(rule, dateFrom, dateTo, env);
    assert f(code) == [];
    FlatMapSkip(a, code, b, f);
  }

  lemma UnknownCodeIsSkipped(rule: WindowRule, a: seq<string>, code: string, b: seq<string>,
                             dateFrom: Option<int>, dateTo: Option<int>, env: Env)
    requires Lookup(code).None?
    ensures GetMatches(rule, a + [code] + b, dateFrom, dateTo, env) == GetMatches(rule, a + b, dateFrom, dateTo, env)
  {
    SilentCodeIsSkipped(rule, a, code, b, dateFrom, dateTo, env);
  }

  lemma FailedLeagueIsSkipped(rule: WindowRule, a: seq<string>, code: string, b: seq<string>,
                              dateFrom: Option<int>, dateTo: Option<int>, env: Env)
    requires FetchLeague(rule, code, dateFrom, dateTo, env).FetchFailed?
    ensures GetMatches(rule, a + [code] + b, dateFrom, dateTo, env) == GetMatches(rule, a + b, dateFrom, dateTo, env)
  {
    SilentCodeIsSkipped(rule, a, code, b, dateFrom, dateTo, env);
  }

  /** "bogus" names no league. */
  lemma BogusIsUnknown()
    ensures Lookup("bogus").None?
  {
    assert Lower("bogus") == "bogus";
  }

  /** An unknown first code is skipped. */
  lemma UnknownFirstIsSkipped(rule: WindowRule, code: string, rest: seq<string>,
                              dateFrom: Option<int>, dateTo: Option<int>, env: Env)
    requires Lookup(code).None?
    ensures GetMatches(rule, [code] + rest, dateFrom, dateTo, env) == GetMatches(rule, rest, dateFrom, dateTo, env)
  {
    var codes := [code] + rest;
    assert codes[0] == code && codes[1..] == rest;
    assert Collect(rule, codes, dateFrom, dateTo, env) == Collect(rule, rest, dateFrom, dateTo, env);
    SameCollectSameMatches(rule, codes, rule, rest, dateFrom, dateTo, env);
  }

  /** `getMatches(["bogus", …rest], …)` is exactly `getMatches(rest, …)`. */
  lemma BogusCodeIsSkipped(rule: WindowRule, rest: seq<string>, dateFrom: Option<int>, dateTo: Option<int>, env: Env)
    ensures GetMatches(rule, ["bogus"] + rest, dateFrom, dateTo, env) == GetMatches(rule, rest, dateFrom, dateTo, env)
  {
    BogusIsUnknown();
    UnknownFirstIsSkipped(rule, "bogus", rest, dateFrom, dateTo, env);
  }

  /** A match is in the result exactly when some listed league contributed it. */
  lemma GetMatchesMembership(rule: WindowRule, codes: seq<string>, dateFrom: Option<int>, dateTo: Option<int>, env: Env, m: Match)
    ensures m in GetMatches(rule, codes, dateFrom, dateTo, env) <==>
      exists i :: 0 <= i < |codes| && m in Contribution(FetchLeague(rule, codes[i], dateFrom, dateTo, env))
  {
    var f := ContributionOf(rule, dateFrom, dateTo, env);
    FlatMapMembership(codes, f, m);
    var r := GetMatches(rule, codes, dateFrom, dateTo, env);
    assert m in r <==> m in multiset(r);
    assert forall i :: 0 <= i < |codes| ==> f(codes[i]) == Contribution(FetchLeague(rule, codes[i], dateFrom, dateTo, env));
  }

  // ---------------------------------------------------------------- as written against corrected

  /** An OpenLigaDB kickoff that the as-written window drops and the corrected one keeps. */
  predicate DroppedAsWritten(code: string, dateFrom: Option<int>, dateTo: Option<int>, m: Match)
  {
    IsOpenLigaCode(code) && LateOnLastDay(m, dateFrom, dateTo)
  }

  /** Keeps what the as-written window does not drop for `code`. */
  function KeptAsWritten(code: string, dateFrom: Option<int>, dateTo: Option<int>): (keep: Match -> bool)
  {
    (m: Match) => !DroppedAsWritten(code, dateFrom, dateTo, m)
  }

  /** Per code: the as-written contribution is the corrected one without the
      OpenLigaDB kickoffs after midnight of the last day. */
  lemma ContributionsRelated(code: string, dateFrom: Option<int>, dateTo: Option<int>, env: Env)
    ensures Contribution(FetchLeague(AsWritten, code, dateFrom, dateTo, env)) ==
      Filter(Contribution(FetchLeague(Corrected, code, dateFrom, dateTo, env)),
             KeptAsWritten(code, dateFrom, dateTo))
  {
    var keep := KeptAsWritten(code, dateFrom, dateTo);
    var corrected := Contribution(FetchLeague(Corrected, code, dateFrom, dateTo, env));
    if IsOpenLigaCode(code) {
      var f := OpenLigaTable(Lookup(code).value.code, env);
      if f.Delivered? {
        WindowFiltersRelated(f.body, dateFrom, dateTo);
        FilterExt(corrected, keep, NotLateTest(dateFrom, dateTo));
      }
    } else {
      FilterAll(corrected, keep);
    }
  }

  /** Per code, the corrected contribution without what the as-written window drops. */
  function CorrectedKept(dateFrom: Option<int>, dateTo: Option<int>, env: Env): (g: string -> seq<Match>)
  {
    (code: string) => Filter(Contribution(FetchLeague(Corrected, code, dateFrom, dateTo, env)), KeptAsWritten(code, dateFrom, dateTo))
  }

  /** The as-written `allMatches` is, code by code, the corrected one without
      the OpenLigaDB kickoffs after midnight of the last day. */
  lemma CollectRelated(codes: seq<string>, dateFrom: Option<int>, dateTo: Option<int>, env: Env)
    ensures Collect(AsWritten, codes, dateFrom, dateTo, env) == FlatMap(codes, CorrectedKept(dateFrom, dateTo, env))
  {
    var g := CorrectedKept(dateFrom, dateTo, env);
    forall i | 0 <= i < |codes|
      ensures ContributionOf(AsWritten, dateFrom, dateTo, env)(codes[i]) == g(codes[i])
    {
      ContributionsRelated(codes[i], dateFrom, dateTo, env);
    }
    FlatMapExt(codes, ContributionOf(AsWritten, dateFrom, dateTo, env), g);
  }

  /** Per code: a match survives as written exactly when the corrected window
      keeps it and it is not dropped. */
  lemma ContributionMembershipRelated(code: string, dateFrom: Option<int>, dateTo: Option<int>, env: Env, m: Match)
    ensures m in Contribution(FetchLeague(AsWritten, code, dateFrom, dateTo, env)) <==>
      m in Contribution(FetchLeague(Corrected, code, dateFrom, dateTo, env)) && !DroppedAsWritten(code, dateFrom, dateTo, m)
  {
    ContributionsRelated(code, dateFrom, dateTo, env);
    FilterMembership(Contribution(FetchLeague(Corrected, code, dateFrom, dateTo, env)), KeptAsWritten(code, dateFrom, dateTo));
  }

  /** A match is in the as-written result exactly when some code contributes it
      under the corrected window and it is not an OpenLigaDB kickoff after
      midnight of the last day. */
  lemma AsWrittenMembership(codes: seq<string>, dateFrom: Option<int>, dateTo: Option<int>, env: Env, m: Match)
    ensures m in GetMatches(AsWritten, codes, dateFrom, dateTo, env) <==>
      exists i :: 0 <= i < |codes| && KeptFromCode(codes[i], dateFrom, dateTo, env, m)
  {
    GetMatchesMembership(AsWritten, codes, dateFrom, dateTo, env, m);
    forall i | 0 <= i < |codes|
      ensures m in Contribution(FetchLeague(AsWritten, codes[i], dateFrom, dateTo, env)) <==>
        KeptFromCode(codes[i], dateFrom, dateTo, env, m)
    {
      ContributionMembershipRelated(codes[i], dateFrom, dateTo, env, m);
    }
  }

  /** `code` contributes `m` under the corrected window and the as-written one keeps it. */
  predicate KeptFromCode(code: string, dateFrom: Option<int>, dateTo: Option<int>, env: Env, m: Match)
  {
    m in Contribution(FetchLeague(Corrected, code, dateFrom, dateTo, env)) && !DroppedAsWritten(code, dateFrom, dateTo, m)
  }

  /** A code that is not OpenLigaDB contributes the same under both rules. */
  lemma NonOpenLigaSameContribution(code: string, dateFrom: Option<int>, dateTo: Option<int>, env: Env)
    requires !IsOpenLigaCode(code)
    ensures Contribution(FetchLeague(AsWritten, code, dateFrom, dateTo, env)) == Contribution(FetchLeague(Corrected, code, dateFrom, dateTo, env))
  {
    ContributionsRelated(code, dateFrom, dateTo, env);
    FilterAll(Contribution(FetchLeague(Corrected, code, dateFrom, dateTo, env)), KeptAsWritten(code, dateFrom, dateTo));
  }

  /** Without an OpenLigaDB code the two rules give the same result. */
  lemma NoOpenLigaSameResult(codes: seq<string>, dateFrom: Option<int>, dateTo: Option<int>, env: Env)
    requires forall i :: 0 <= i < |codes| ==> !IsOpenLigaCode(codes[i])
    ensures GetMatches(AsWritten, codes, dateFrom, dateTo, env) == GetMatches(Corrected, codes, dateFrom, dateTo, env)
  {
    var f := ContributionOf(AsWritten, dateFrom, dateTo, env);
    var g := ContributionOf(Corrected, dateFrom, dateTo, env);
    forall i | 0 <= i < |codes|
      ensures f(codes[i]) == g(codes[i])
    {
      NonOpenLigaSameContribution(codes[i], dateFrom, dateTo, env);
    }
    FlatMapExt(codes, f, g);
    SameCollectSameMatches(AsWritten, codes, Corrected, codes, dateFrom, dateTo, env);
  }

  /** As written, a one-day window keeps from an OpenLigaDB code only the
      kickoffs at exactly midnight of that day. */
  lemma OneDayAsWrittenIsMidnight(code: string, day: int, env: Env, m: Match)
    requires IsOpenLigaCode(code)
    requires m in Contribution(FetchLeague(AsWritten, code, Some(day), Some(day), env))
    ensures m.date == day
  {
  }

  /** With one league, `allMatches` is that league's contribution. */
  lemma CollectSingle(rule: WindowRule, code: string, dateFrom: Option<int>, dateTo: Option<int>, env: Env)
    ensures Collect(rule, [code], dateFrom, dateTo, env) == Contribution(FetchLeague(rule, code, dateFrom, dateTo, env))
  {
    FlatMapSingle(code, ContributionOf(rule, dateFrom, dateTo, env));
  }

  /** A one-element collection sorts to itself. */
  lemma GetMatchesSingle(rule: WindowRule, code: string, dateFrom: Option<int>, dateTo: Option<int>, env: Env, m: Match)
    requires Contribution(FetchLeague(rule, code, dateFrom, dateTo, env)) == [m]
    ensures GetMatches(rule, [code], dateFrom, dateTo, env) == [m]
  {
    CollectSingle(rule, code, dateFrom, dateTo, env);
    var r := GetMatches(rule, [code], dateFrom, dateTo, env);
    assert multiset(r) == multiset{m};
    assert |r| == 1;
    assert r[0] in multiset(r);
  }

  /** The same at the level of `getMatches`: a single OpenLigaDB league whose
      table holds one 15:30 kickoff of 2025-03-15 yields nothing as written for
      that day, and that one match when corrected. */
  lemma AsWrittenDayMissesAfternoon(code: string, env: Env, m: Match)
    requires IsOpenLigaCode(code)
    requires OpenLigaTable(Lookup(code).value.code, env) == Delivered([m])
    requires m.date == March15 + 15 * 60 * 60 * 1000 + 30 * 60 * 1000
    ensures GetMatches(AsWritten, [code], Some(March15), Some(March15), env) == []
    ensures GetMatches(Corrected, [code], Some(March15), Some(March15), env) == [m]
  {
    AsWrittenDropsAfternoonKickoff(m);
    assert Contribution(FetchLeague(AsWritten, code, Some(March15), Some(March15), env)) == [];
    assert Contribution(FetchLeague(Corrected, code, Some(March15), Some(March15), env)) == [m];
    CollectSingle(AsWritten, code, Some(March15), Some(March15), env);
    var r := GetMatches(AsWritten, [code], Some(March15), Some(March15), env);
    assert multiset(r) == multiset{};
    GetMatchesSingle(Corrected, code, Some(March15), Some(March15), env, m);
  }
}
