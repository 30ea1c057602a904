# Football and Decide: a Dafny model

This project models two small Node.js command-line tools.

- **football.js** collects European football fixtures from two providers.
  - OpenLigaDB serves the German competitions. The client asks for a whole season and filters it by date itself.
  - football-data.org serves the other competitions. It takes a date range and needs an API key.
  - The records from both are normalised into one match shape. The tool resolves user-facing league aliases, merges the leagues in order and sorts the result by kickoff.
  - It offers five views: `upcoming`, `today`, `results`, `highlights` and `briefing`. A view can also flag "interesting" matches, meaning a top club is playing.
- **decide.js** is a decision helper. It flips coins, rolls `NdX` dice, picks an option, answers like a Magic 8-Ball, says yes or no, and draws a number.
  - Every command's result is printed either as a JSON object or, with `--raw`, as one plain line.

The model is functional throughout:

- Kickoff instants are integers of milliseconds since the epoch.
- The `YYYY-MM-DD` window bounds are day-start instants.
- Each HTTP round trip is an oracle function from a request to a parsed body or a failure.
- `process.env` and the local clock become parameters (`Aggregator.Env` and `now`).
- Each `Math.random()` value is a `Draws.Draw`, a real in [0, 1). A roll of several dice reads a stream of draws, one per die.
- The aggregator and the views take an `Aggregator.WindowRule`. `AsWritten` is the OpenLigaDB date filter exactly as football.js has it; `Corrected` is the fix described under Findings. Every view contract holds under both rules, and lemmas relate the two.

Modules follow the programs:

- **Shared helpers:**
  - `Wrappers`: the Option type.
  - `Text`: ASCII lower-casing, substring search, digits, join.
  - `Decimal`: decimal text to and from integers.
  - `Ordering`: order-keeping filter, stable sort, concat-map, take.
- **football.js:** `Matches`, `Teams`, `Leagues`, `Providers`, `Aggregator`, `Views`.
- **decide.js:** `Draws`, `Decisions`, `Dice`, `Answers`, `DecideCli`.

## Model

| member | source | states |
|---|---|---|
| Text.Lower | football/scripts/football.js:70 | lower-casing keeps the length and maps each character through the ASCII case map |
| Text.LowerIdempotent | football/scripts/football.js:70 | lower-casing twice is lower-casing once |
| Text.ContainsIff | football/scripts/football.js:71 | `includes` holds exactly when the fragment occurs at some position of the text |
| Teams.AnyFragmentIff | football/scripts/football.js:71 | `TOP_TEAMS.some(...)` holds exactly when some fragment of the list is contained in the text |
| Teams.AnyFragmentOccurs | football/scripts/football.js:71 | the same, against the positional reference definition: some fragment occurs at some index |
| Teams.IsTopTeamIff | football/scripts/football.js:69-72 | a name is a top team exactly when some TOP_TEAMS fragment occurs in its lower-cased form |
| Teams.IsTopTeamCaseInsensitive | football/scripts/football.js:69-72 | a name and its lower-cased form are classified alike |
| Teams.IsInterestingSymmetric | football/scripts/football.js:74-76 | swapping home and away leaves the interesting flag unchanged |
| Teams.InterestingByFragment | football/scripts/football.js:74-76 | a fragment in either team's lower-cased name makes the match interesting |
| Teams.TopTeamAt | football/scripts/football.js:69-72 | a fragment occurring at any position of the lower-cased name makes it a top team |
| Teams.BayernHomeIsInteresting | football/scripts/football.js:69-76 | a home side "FC Bayern München" makes the match interesting |
| Teams.InterMiamiAwayIsInteresting | football/scripts/football.js:69-76 | an away side "Inter Miami" is flagged, through the substring "inter" |
| Leagues.LookupCaseInsensitive | football/scripts/football.js:152 | a league code and its lower-cased form resolve to the same entry |
| Leagues.AliasesAgree | football/scripts/football.js:26-27 | "bundesliga" and "bl1", in any case, both resolve to OpenLigaDB code bl1 |
| Leagues.PremierLeagueAliasesAgree | football/scripts/football.js:31-32 | "premier-league" and "pl", in any case, both resolve to football-data code PL |
| Leagues.OpenLigaCodes | football/scripts/football.js:25-43 | a code is served by OpenLigaDB exactly when, lower-cased, it is one of the five German aliases |
| Providers.OrElse | football/scripts/football.js:107-109 | `s \|\| fallback`: the field when it is present and non-empty, the fallback otherwise |
| Providers.DefaultSeason | football/scripts/football.js:88-95 | the chosen season is the year in which the current August-to-July season began |
| Providers.DefaultSeasonUnique | football/scripts/football.js:88-95 | no other year has that property |
| Providers.DefaultSeasonExamples | football/scripts/football.js:94 | March 2025 and July 2025 give 2024; August and September 2025 give 2025 |
| Providers.EffectiveSeason | football/scripts/football.js:87-90 | a season that is absent or 0 is replaced by the default; any other season is kept |
| Providers.OpenLigaTeamName | football/scripts/football.js:108-109 | the team name when it is present and non-empty, else "TBD"; never empty |
| Providers.FinalResult | football/scripts/football.js:112-113 | the second entry of `matchResults` is present exactly when the list has more than one entry |
| Providers.NormalizeOpenLiga | football/scripts/football.js:105-114 | field by field: id, competition or code, team names or TBD, UTC time else local time, FINISHED exactly when `matchIsFinished` is true, else SCHEDULED, scores from the final result or null |
| Providers.NormalizeOpenLigaShaped | football/scripts/football.js:105-114 | every normalised OpenLigaDB match has non-empty names and a FINISHED or SCHEDULED status |
| Providers.EncodeOpenLiga | football/scripts/football.js:105-114 | each well-formed match has a raw record that normalises back to it, under any requested code |
| Providers.FetchOpenLiga | football/scripts/football.js:87-115 | requests the effective season; fails exactly when the fetch fails; a non-array body gives no matches; an array gives its records normalised, in order |
| Providers.QueryOf | football/scripts/football.js:124-127 | the date query is attached exactly when both bounds are given |
| Providers.NameOr | football/scripts/football.js:138-140 | `obj?.name \|\| fallback`, case by case |
| Providers.NormalizeFootballData | football/scripts/football.js:136-145 | field by field: id, kickoff and status copied, competition name or code, team names or TBD, full-time scores or null |
| Providers.NormalizeFootballDataShaped | football/scripts/football.js:136-145 | every normalised football-data match has non-empty competition and team names |
| Providers.EncodeFootballData | football/scripts/football.js:136-145 | each well-formed match, with any status, has a raw record that normalises back to it |
| Providers.FetchFootballData | football/scripts/football.js:118-146 | no key: no matches, no request. A failed fetch or a null body fails. An error or message field, or a missing `matches`, gives no matches. Otherwise the records are normalised in order |
| Providers.NoKeyNoFetch | football/scripts/football.js:119-122 | without a key the result does not depend on the provider |
| Aggregator.DayStart | football/scripts/football.js:164-165 | the start of the UTC day holding an instant: day-aligned, at most that instant, less than a day before it |
| Aggregator.WindowFilterAsWritten | football/scripts/football.js:163-167 | as written: with some bound given, keeps every copy of each match with `from <= date <= to`, where `to` is midnight of the last day, and no other, in input order; with none, keeps everything |
| Aggregator.WindowFilter | football/scripts/football.js:163-167 | corrected: the same, with every instant of the last day inside the window |
| Aggregator.AsWrittenIsCorrectedNotLate | football/scripts/football.js:163-167 | with some bound given, the as-written test is the corrected test minus the kickoffs after midnight of the last day |
| Aggregator.WindowFiltersRelated | football/scripts/football.js:163-167 | the as-written filter's result is exactly the corrected result without the kickoffs after midnight of the last day |
| Aggregator.WindowBoundsInclusive | football/scripts/football.js:166 | a kickoff exactly at either boundary instant is inside the window, in both versions |
| Aggregator.InWindowByDay | football/scripts/football.js:163-167 | with day-aligned bounds the corrected test keeps exactly the kickoffs whose UTC day lies between the two boundary days |
| Aggregator.AsWrittenDropsAfternoonKickoff | football/scripts/football.js:163-167 | for the one-day window of 2025-03-15, a 15:30 UTC kickoff that day is dropped as written and kept by the correction |
| Aggregator.FetchLeague | football/scripts/football.js:152-170 | a code is skipped as unknown exactly when its lower-cased form is not in the alias table |
| Aggregator.FetchLeagueOutcome | football/scripts/football.js:158-174 | a code fails exactly when its provider's fetch fails; football-data.org matches pass unchanged; OpenLigaDB matches are an in-order part of the season table, kept exactly when they pass the rule's window test |
| Aggregator.Contribution | football/scripts/football.js:153-174 | unknown and failed codes add nothing to the result |
| Aggregator.GetMatches | football/scripts/football.js:148-178 | under either window rule: sorted by kickoff; a permutation of the contributions concatenated in league order; matches with equal kickoff keep that order |
| Aggregator.GetMatchesDetermined | football/scripts/football.js:177 | any sorted sequence holding at each kickoff the same run of matches as the league-ordered contributions is the result |
| Aggregator.SilentCodeIsSkipped | football/scripts/football.js:153-174 | removing a code that contributes nothing, anywhere in the list, does not change the result |
| Aggregator.UnknownCodeIsSkipped | football/scripts/football.js:152-156 | an unknown code anywhere in the list is skipped and the other codes still run |
| Aggregator.FailedLeagueIsSkipped | football/scripts/football.js:158-174 | a code whose fetch fails is skipped and the other codes still run |
| Aggregator.BogusIsUnknown | football/scripts/football.js:152-153 | "bogus" names no league |
| Aggregator.UnknownFirstIsSkipped | football/scripts/football.js:151-156 | a leading unknown code leaves the result of the rest unchanged |
| Aggregator.BogusCodeIsSkipped | football/scripts/football.js:151-156 | `getMatches(["bogus", ...rest])` equals `getMatches(rest)` |
| Aggregator.GetMatchesMembership | football/scripts/football.js:148-178 | a match is in the result exactly when some listed code contributed it |
| Aggregator.ContributionsRelated | football/scripts/football.js:160-167 | per code, the as-written contribution is the corrected one without the OpenLigaDB kickoffs after midnight of the last day |
| Aggregator.CollectRelated | football/scripts/football.js:151-171 | the as-written concatenation is the corrected one with those kickoffs removed, code by code |
| Aggregator.ContributionMembershipRelated | football/scripts/football.js:160-167 | per code, a match survives as written exactly when the corrected window keeps it and it is not such a kickoff |
| Aggregator.AsWrittenMembership | football/scripts/football.js:148-178 | a match is in the as-written result exactly when some code contributes it under the corrected window and it is not an OpenLigaDB kickoff after midnight of the last day |
| Aggregator.NonOpenLigaSameContribution | football/scripts/football.js:168-170 | a code not served by OpenLigaDB contributes the same under both rules |
| Aggregator.NoOpenLigaSameResult | football/scripts/football.js:148-178 | with no OpenLigaDB code listed, the as-written and corrected results are equal |
| Aggregator.OneDayAsWrittenIsMidnight | football/scripts/football.js:163-167 | as written, a one-day window keeps from an OpenLigaDB code only kickoffs at exactly midnight of that day |
| Aggregator.AsWrittenDayMissesAfternoon | football/scripts/football.js:148-178 | one OpenLigaDB league whose table holds one 15:30 kickoff of 2025-03-15: as written `getMatches` for that day is empty, corrected it is that match |
| Views.LeaguesOr | football/scripts/football.js:198-200 | the one league option when it is given and non-empty, the view's defaults otherwise |
| Views.SelectionUnique | football/scripts/football.js:202-203 | two sequences that are both the selection of the same matches by the same test are equal, so each view's contract fixes its result |
| Views.Query | football/scripts/football.js:202-203 | the shared shape of a view: the matches of the window that pass the view's test, every copy kept, sorted by kickoff with equal kickoffs in league order; membership is exactly "in the window and passes the test" |
| Views.Upcoming | football/scripts/football.js:194-211 | the selection, by "not finished", of the contributions of the league or the three defaults from today to a week later: sorted, all copies, ties in league order |
| Views.TodayMatches | football/scripts/football.js:213-232 | sorted; a permutation of the one-day window's contributions, every status kept, equal kickoffs in league order |
| Views.TodayAsWrittenMidnightOnly | football/scripts/football.js:213-220 | as written, every match `today` shows is either at 00:00 UTC of the day or contributed by a league not served by OpenLigaDB |
| Views.TodayCorrectedKeepsWholeDay | football/scripts/football.js:213-220 | corrected, `today` keeps from an OpenLigaDB league exactly the table's kickoffs on the current UTC day |
| Views.Results | football/scripts/football.js:254-271 | the selection, by "finished", of the contributions of the league or the two defaults from a week ago to today |
| Views.Highlights | football/scripts/football.js:234-252 | the selection of interesting unfinished matches from the four fixed leagues over the coming week |
| Views.WeekHighlights | football/scripts/football.js:297-298 | the selection of interesting unfinished matches from the three briefing leagues over the coming week |
| Views.TodayHighlights | football/scripts/football.js:284-285 | the selection of interesting matches, whatever their status, from the three briefing leagues today |
| Views.MakeBriefing | football/scripts/football.js:273-310 | the today group is the today highlights; the week group is the first five week highlights, so at most five |
| Views.BriefingWeekWithinUpcoming | football/scripts/football.js:297-302 | every match the briefing lists for the week is interesting, unfinished and shown by `upcoming` with its default leagues |
| Views.BriefingTodayWithinToday | football/scripts/football.js:284-285 | the briefing's today group is part of what `today` shows with its default leagues |
| Views.UpcomingAndResultsDisjoint | football/scripts/football.js:203 | `upcoming` and `results` for the same league choice never share a match |
| Views.ShowScore | football/scripts/football.js:183 | a printed score, a number or `null`, never contains a colon |
| Views.ScoreText | football/scripts/football.js:183 | the score text holds a colon exactly when the match is finished; otherwise it is "vs" |
| Views.ShowScoreRoundTrip | football/scripts/football.js:183 | a printed score reads back as the same score or null |
| Views.ScoreTextRoundTrip | football/scripts/football.js:183 | the score text reads back to "vs" for an unfinished match and to both scores for a finished one |
| Decimal.ShowNat | decide/scripts/decide.js:220 | the decimal text of a natural number is non-empty, all digits, and starts with 0 only for 0 |
| Decimal.ShowNatRoundTrip | decide/scripts/decide.js:220 | reading the digits of a printed natural number gives the number back |
| Decimal.ShowInt | decide/scripts/decide.js:220-222 | the text of an integer starts with '-' exactly when it is negative, and is digits after that |
| Decimal.ShowIntRoundTrip | decide/scripts/decide.js:220-222 | reading a printed integer gives it back |
| Draws.RandomInt | decide/scripts/decide.js:38-40 | for ordered bounds the value lies between them, both included; for `max = min - 1` it is `min` |
| Draws.RandomIntCovers | decide/scripts/decide.js:38-40 | every value between ordered bounds comes out for some draw |
| Draws.PickRandom | decide/scripts/decide.js:42-44 | the picked element belongs to the non-empty array |
| Dice.ParseDiceIff | decide/scripts/decide.js:46-53 | a notation parses exactly when its lower-cased form matches `^(\d*)d(\d+)$`; the count is the first digit run, or 1 when it is empty, and the sides are the second run |
| Dice.ParseFormatRoundTrip | decide/scripts/decide.js:46-53 | printing dice as `NdX` and parsing the text gives the same dice |
| Dice.ParseDiceExamples | decide/scripts/decide.js:47-52 | "2d6" is 2 six-sided dice; "d20" and "D8" are one die |
| Dice.ParseDiceRejects | decide/scripts/decide.js:48-49 | "2d", "x" and "2d6a" are rejected |
| Dice.Rolls | decide/scripts/decide.js:61-64 | one roll per die; roll i is `randomInt(1, sides)` on draw i |
| Dice.RollDice | decide/scripts/decide.js:55-75 | an error naming the notation exactly when it does not parse; otherwise the notation is echoed, there are count rolls each from 1 to sides, and the total is their sum |
| Dice.SumBounds | decide/scripts/decide.js:66 | the total of rolls from 1 to sides lies between count and count times sides |
| Dice.ZeroDice | decide/scripts/decide.js:50-66 | "0d6" rolls nothing and totals 0 |
| Answers.Flip | decide/scripts/decide.js:77-85 | Heads/Kopf or Tails/Zahl, English and German from the same side, with the coin emoji |
| Answers.Pick | decide/scripts/decide.js:87-98 | the "No options provided" error exactly when there are no options; otherwise the options are echoed and the result is one of them |
| Answers.EightBallTable | decide/scripts/decide.js:7-31 | twenty answers: ten positive, then five neutral, then five negative |
| Answers.MoodEmoji | decide/scripts/decide.js:102-113 | ✨, 🤔 or 😬 for the three moods; 🎱 for any other |
| Answers.EightBall | decide/scripts/decide.js:100-115 | the question is echoed; text, German text and mood come from one table entry; the emoji is fixed by the mood and is never the 🎱 fallback |
| Answers.YesNo | decide/scripts/decide.js:117-125 | Yes exactly when the draw is below one half; Yes goes with Ja and ✅, No with Nein and ❌ |
| Answers.RandomNumber | decide/scripts/decide.js:127-136 | the bounds are echoed and the number lies between ordered bounds |
| Answers.TrimStart | decide/scripts/decide.js:181-182 | `parseInt` skips the leading whitespace: what is removed is all whitespace, and what is left is a suffix that does not start with whitespace |
| Answers.LeadingHexDigits | decide/scripts/decide.js:181-182 | the longest run of hexadecimal digits at the start |
| Answers.NumberArg | decide/scripts/decide.js:181-182 | `parseInt(arg) \|\| fallback`: the parsed value unless it is NaN, 0 or missing |
| Answers.ParseIntShowInt | decide/scripts/decide.js:181-182 | `parseInt` reads back the decimal text of every integer |
| Answers.MagnitudeOfShowNat | decide/scripts/decide.js:181-182 | the unsigned part of `parseInt` reads back a printed natural number |
| Answers.NumberArgShowInt | decide/scripts/decide.js:181-182 | a bound given as the decimal text of v is v, except that 0 falls back |
| DecideCli.AliasGroups | decide/scripts/decide.js:148-187 | each German and English alias selects its group's command; "help" and the empty word give help |
| DecideCli.ParseArgs | decide/scripts/decide.js:139-141 | raw mode is on exactly when `--raw` is among the arguments; the remaining words are exactly the other arguments |
| DecideCli.CommandWord | decide/scripts/decide.js:143 | the first remaining word when it is non-empty, else "help" |
| DecideCli.RawField | decide/scripts/decide.js:217-223 | a roll prints its total, a number its value, any other command its `result` |
| DecideCli.Run | decide/scripts/decide.js:139-227 | help exactly when the command word selects no command; otherwise an error exit with its message exactly when the decision fails, else the raw field with `--raw` and the JSON object without it |
| DecideCli.RawOnlyChangesOutputForm | decide/scripts/decide.js:139-227 | inserting `--raw` anywhere turns a JSON object into its raw field and leaves help and error exits unchanged |
| DecideCli.ErrorExits | decide/scripts/decide.js:143-209 | the script exits with an error exactly for a roll whose notation does not parse and for a pick without options, with their messages |
| DecideCli.NoCommandIsHelp | decide/scripts/decide.js:143-209 | with no arguments, or only `--raw`, help is shown |
| DecideCli.RawFlagStripped | decide/scripts/decide.js:140-141 | a `--raw` anywhere switches on raw mode and leaves the other words as they were |
| DecideCli.RawRollPrintsTotal | decide/scripts/decide.js:155-220 | `roll NdX --raw` prints the total of that roll |
| DecideCli.RawPickPrintsResult | decide/scripts/decide.js:161-222 | `--raw pick a b ...` prints the picked option |
| DecideCli.NumberDefaults | decide/scripts/decide.js:179-183 | `number` with no bounds draws from 1 to 100 |
| DecideCli.RollDefaultsToD6 | decide/scripts/decide.js:155-158 | `roll` with no notation rolls "d6" |
| DecideCli.DefaultNotationParses | decide/scripts/decide.js:50-52 | "d6" is one six-sided die |
| DecideCli.EightBallDefaultsToQuestionMark | decide/scripts/decide.js:167-170 | `8ball` with no words asks "?" |
| Ordering.FilterMembership | football/scripts/football.js:203 | `filter` keeps an element exactly when it is in the input and passes the test |
| Ordering.FilterCounts | football/scripts/football.js:203 | `filter` keeps every copy of an element that passes the test and no copy of one that fails it |
| Ordering.FilterSubsequence | football/scripts/football.js:203 | `filter` keeps the relative order of what it keeps |
| Ordering.FilterFilter | football/scripts/football.js:203 | filtering twice is filtering once with both tests |
| Ordering.KeyFilterOfFilter | football/scripts/football.js:203 | filtering commutes with taking the run of one kickoff |
| Ordering.FilterSorted | football/scripts/football.js:203 | filtering a sequence sorted by kickoff keeps it sorted |
| Ordering.SortBySorted | football/scripts/football.js:177 | the sort orders by the key |
| Ordering.SortByStable | football/scripts/football.js:177 | the sort is stable: the elements with any one key keep their order |
| Ordering.SortedKeyFilterUnique | football/scripts/football.js:177 | two sorted sequences with the same run at every key are equal: a stable sort has one possible result |
| Ordering.FlatMapMembership | football/scripts/football.js:151-171 | an element is in the concatenation exactly when some input contributed it |
| Ordering.FlatMapSkip | football/scripts/football.js:153-156 | removing an input that contributes nothing leaves the concatenation unchanged |
| Ordering.TakeMembership | football/scripts/football.js:302 | `slice(0, n)` keeps only elements of the input |
| Ordering.FilterConcat | decide/scripts/decide.js:141 | filtering distributes over concatenation |

## Left out

- Network I/O is not modelled: the HTTP client, its 10-second timeout and `JSON.parse` are replaced by oracle functions. A timeout, a socket error and an unparsable body all become `Failed`.
- Console output is not modelled: warnings, JSON pretty-printing, the help texts and process exit codes. `DecideCli.Run` stops at the printed value.
- Date formatting is not modelled: `formatDate`, `formatTime`, `toLocaleTimeString` and date-string parsing. Kickoffs arrive as parsed instants, and `formatDate` followed by `new Date(...)` is modelled as `Aggregator.DayStart`. An unparsable date, which would be an invalid Date in JavaScript, is not representable.
- The human-readable rendering of `formatMatch` is left out. Only the score text is modelled, because the rest is date formatting and string layout.
- The command-line parsing of football.js (`--human`, `--compact`, `--league`) is left out. It selects which view runs, and the views take the league option directly.
- Text.Lower: `toLowerCase` is modelled on ASCII letters only; non-ASCII capitals such as `Ü` are left as they are.
- Draws.RandomInt: it uses exact real arithmetic; double-precision rounding of `Math.random() * width` is not modelled.
- Answers.ParseIntJs: it does not model double-precision rounding of very long digit runs.
- Leagues.Lookup: JavaScript keys inherited from `Object.prototype`, such as `constructor`, are not modelled; every code outside the alias table is unknown.
- Providers.OpenLigaRecord: array elements that are not objects are not modelled. The kickoff fields are taken as already parsed, and the `matchDateTimeUTC || matchDateTime` fallback is an Option.
- Providers.FootballDataBody: the `error` and `message` fields are modelled as strings; a `matches` field that is truthy but not an array is not modelled.
- The unused `yesterday` value of the briefing is left out.
- `Decisions.Decision` names the number field of the `number` result `number`; the JSON key is `result`. `DecideCli.RawField` prints it as the `result` line.

## Findings

| source | as written | input that shows it | evidently intended | confidence | as-written member | corrected member |
|---|---|---|---|---|---|---|
| football/scripts/football.js:163-167 | the OpenLigaDB date filter keeps `m.date <= new Date(dateTo)`, and `new Date("YYYY-MM-DD")` is midnight UTC at the start of the last day | `today` (football.js:220) on 2025-03-15 with a Bundesliga kickoff at 15:30 UTC that day: from and to are both 2025-03-15T00:00Z, so the match is dropped. The briefing's today group at football.js:284 loses it too | the whole last day is inside the window: `m.date < dateTo + 1 day` | not executed | Aggregator.WindowFilterAsWritten, Aggregator.AsWrittenDayMissesAfternoon | Aggregator.WindowFilter, Aggregator.InWindowByDay |
