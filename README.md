# Geniusness score pipeline, modelled in Dafny

Geniusness runs daily leagues over online word games (Wordle, Connections,
Spelling Bee, Pyramid Scheme, Bracket City, Keyword and others). This project
models the four parts that turn what players paste or type into standings:

- **Share-text parsing** (`server/routes/shareParser.js`):
  - `parseShareString` takes a game slug, the game's optional parser row and a
    share text, and returns a score or nothing (module `ShareParser`).
  - The `POST /parse` handler validates the request and calls the parser (twice
    for Keyword). When the parser finds nothing, it falls back to the numbers in
    the text, with corrections for each game (module `ParseRoute`).
  - Modules `ShareParserFacts` and `ParseRouteFacts` hold what is proved about
    them.
- **Standings** (`server/routes/standings.js`):
  - `assignPoints` gives competition ranking ("1224"): tied items share a rank,
    and the next rank skips by the size of the tie.
  - `GET /standings/:leagueId`:
    - ranks each league game on each date;
    - ranks each date by the points summed over that date's games;
    - ranks players overall by the sum of their daily points (module `Standings`).
  - Module `StandingsFacts` holds what is proved about them.
- **Spreadsheet backfill** (`backfill/backfill_league.py`):
  - Turning single cells into values: handicaps, dates, scores, the handicap
    reversal for crosswords, and the Wordle and Connections conversions (module
    `BackfillCells`).
  - Reading one sheet (module `BackfillSheet`):
    - locating the header and the handicap row;
    - the run of date columns;
    - the row of starting words;
    - detecting the data-row layout;
    - the score rows.
  - `process_file` (module `BackfillFile`).
  - The loop in `main` over all files (module `BackfillRun`):
    - starting words are kept once per (date, word);
    - duplicate (player, game, date) scores are either refused or resolved by
      keeping the first.
  - The key-based deduplication is generic, in module `Dedup`. Module
    `BackfillFacts` holds what is proved about process_file.
- **Browser extension** (`extension/content-nyt-games.js`): the table of path
  prefixes and `getGameSlug`, and the `looksLikeShareText` heuristic (module
  `GameDetection`).
- **Shared modules**:
  - `Wrappers`: Option and Result.
  - `Text`: characters, JavaScript's `trim` and `split`, UTF-16 length, ASCII
    lowering, lexicographic order, digit values.
  - `Matchers`: regular expressions compiled by hand.
  - `PyNumbers`: Python's `int()` and `float()`.
  - `Seqs`: filter, maximum, object-built-from-a-loop, first index.
  - `Sorting`: the stable sort that `Array.prototype.sort` performs (insertion
    sort).

How the source is modelled:

- Each fixed regular expression is compiled by hand into a deterministic matcher
  at one position, plus a search for the leftmost position where it matches.
  - For every pattern used, greedy matching gives the same captures that
    backtracking would.
  - A `.*` or `.*?` inside a pattern becomes a search for the last or the first
    place where the rest of the pattern matches.
- A regex pattern stored in the database, and `new URL(...)`, are not fixed, so
  they are given as the `Host` parameter.
- `strptime` is given as a function parameter: the date formats it accepts are
  Python's business.
- Strings are sequences of Unicode code points.
  - Where JavaScript counts UTF-16 code units, the model does too: `t.length`
    is `Utf16Length`.
  - A character class without the `u` flag, such as `[🟪🟦🟩🟨]`, matches code
    units. The model writes this out exactly (`CodeUnits`, `InUnitClass`).
  - So every character from U+1F400 to U+1F7FF counts as a square in those
    classes, because its leading surrogate is 0xD83D. `LeadUnitIsGlyph` and
    `AnyEmojiLooksShared` state this.
- `Array.prototype.sort` is stable, and is modelled as a stable insertion sort
  on the given comparator (`SortByStable`).
- `Object.keys` is modelled in insertion order. The default `.sort()` compares
  date strings by UTF-16 code unit; the model compares code points, which
  agrees except for characters above U+FFFF.
- The methods follow the loops of the source and are proved against
  specification functions. The lemmas then state what the source promises about
  those functions.

Keyword guesses: the code has no rule that reads a guess count. A Keyword text
such as `Time: 12, Guesses: 7` matches none of the five Keyword patterns of
`parseShareString`, so its score depends on the parser row:

- Without a parser row, parseShareString returns null. The route's fallback
  then takes the Keyword band, which picks the larger of 12 + 7·10 and
  7 + 12·10: 127.
- With a regex parser row whose own pattern finds nothing, the raw-number step
  of parseShareString returns the first number: 12.
- `ParseRouteFacts.KeywordFallback` and `ShareParserFacts.RawFirstNumber` state
  these two rules.

## Model

| member | source | states |
|---|---|---|
| ShareParser.ParseShareString | server/routes/shareParser.js:3-176 | the method that runs the chain of early returns computes exactly the score of the specification function ShareScore |
| ShareParser.ParseWithParser | server/routes/shareParser.js:20-169 | the part of the chain after the Keyword extractor gives ParserScore: regex extractors, the parser's pattern, then the URL rank, then the raw number |
| ShareParser.TimePlusErrors | server/routes/shareParser.js:11-16 | a Keyword match gives a score exactly when both groups were captured; the score is time + 10·errors, and never less than the time |
| ShareParser.CountErrorLines | server/routes/shareParser.js:31-40 | the loop counts exactly the kept lines that are not one colour throughout |
| ShareParser.CountConnectionsErrors | server/routes/shareParser.js:25-42 | the Connections score is the number of square lines that mix colours, so it is at most the number of square lines |
| ShareParser.AcceptedTime | server/routes/shareParser.js:68-73 | a minutes:seconds match is accepted exactly when both parts are below 60; it then gives minutes·60 + seconds, below 3600 |
| ShareParser.FirstAcceptedTime | server/routes/shareParser.js:66-75 | the first accepted time over the six patterns is below 3600 seconds |
| ShareParser.ScanTimePatterns | server/routes/shareParser.js:66-75 | the loop over the six minutes:seconds patterns returns the first pattern's accepted time |
| ShareParser.PyramidTime | server/routes/shareParser.js:56-95 | any Pyramid Scheme time (minutes:seconds, a number of seconds, 0:SS, or any M:SS) is below 3600 seconds |
| ShareParser.PyramidTail | server/routes/shareParser.js:76-94 | when no minutes:seconds pattern was accepted, the rest of the sequence (seconds only, 0:SS, any M:SS) gives the Pyramid Scheme time |
| ShareParser.FirstNonNegative | server/routes/shareParser.js:106-112 | a Bracket City score taken from a pattern is never negative |
| ShareParser.ScanBracketPatterns | server/routes/shareParser.js:98-113 | the loop over the five score patterns returns BracketScore, the first non-negative parsed capture |
| ShareParser.ParamRank | server/routes/shareParser.js:133-137 | the URL parameter the parser row names gives 2 exactly for "Queen Bee", 1 exactly for "Genius", else 0 |
| ShareParser.TextRank | server/routes/shareParser.js:140-144 | a text that is not a URL gives 2 exactly when it contains "Queen", white space and "Bee" (in any case); 1 exactly when it has no such match but contains "Genius" (in any case); otherwise 0 |
| ShareParser.RunRegexStep | server/routes/shareParser.js:23-126 | the regex branch, as the code runs it, gives the stage result RegexStep: it returns, or passes to the next stage |
| ShareParserFacts.KeywordTimeErrors | server/routes/shareParser.js:5-17 | "Time: t, Errors: e" followed by a non-digit scores t + 10·e for Keyword, whatever the parser row |
| ShareParserFacts.KeywordTextScore | server/routes/shareParser.js:6-16 | the first Keyword pattern reads exactly t and e out of "Time: t, Errors: e" |
| ShareParserFacts.KeywordDecides | server/routes/shareParser.js:5-17 | for Keyword, once a time+errors pattern matches, its score is the result and no parser row is consulted |
| ShareParserFacts.KeywordFirstPattern | server/routes/shareParser.js:6-10 | when the first pattern matches at the start, the `||` chain takes its captures |
| ShareParserFacts.ErrorsLabelOf | server/routes/shareParser.js:6 | the `Errors:\s*(\d+)` part of the pattern captures exactly the number after the label |
| ShareParserFacts.TimeCommaErrorsOf | server/routes/shareParser.js:6 | `Time:\s*(\d+)\s*,\s*Errors:\s*(\d+)` captures exactly (t, e) from "Time: t, Errors: e" |
| ShareParserFacts.CommaErrorsOf | server/routes/shareParser.js:6 | the `\s*,\s*Errors:\s*(\d+)` tail captures the number after ", Errors: " |
| ShareParserFacts.NoParserOnlyKeyword | server/routes/shareParser.js:20 | without a parser row, only Keyword can give a score |
| ShareParserFacts.ConnectionsDispatch | server/routes/shareParser.js:25-42 | a regex parser with score path count_errors gives Connections its count of mixed square lines |
| ShareParserFacts.WordleDispatch | server/routes/shareParser.js:45-52 | a regex parser with score path count_lines gives Wordle its count of square lines |
| ShareParserFacts.SpellingBeeRank | server/routes/shareParser.js:129-146 | a url_param parser with the spelling_bee_rank path ranks Spelling Bee 0, 1 or 2, whether or not the text is a URL |
| ShareParserFacts.MarkerLineIffGlyph | server/routes/shareParser.js:26-30 | a line is kept for Connections exactly when it holds one of the four square glyph classes: trimming and the non-empty test lose nothing |
| ShareParserFacts.GuessLineIffGlyph | server/routes/shareParser.js:46-50 | a line counts for Wordle exactly when it holds a character of the white/yellow/green class |
| ShareParserFacts.ConnectionsOfLines | server/routes/shareParser.js:25-42 | on lines joined by newlines, the Connections score is exactly the number of lines that hold squares of more than one colour, and at most the number of square lines |
| ShareParserFacts.WordleOfLines | server/routes/shareParser.js:45-52 | on lines joined by newlines, the Wordle score is exactly the number of lines with a square, at most the number of lines |
| ShareParserFacts.WordleOneMoreLine | server/routes/shareParser.js:45-52 | one more line adds one guess exactly when it holds a square |
| ShareParserFacts.SquaresInClasses | server/routes/shareParser.js:29 | the purple, blue, green and yellow squares are in the Connections class, and the white, yellow and green ones in the Wordle class (line 49) |
| ShareParserFacts.LeadUnitIsGlyph | server/routes/shareParser.js:29 | since the classes are matched by UTF-16 code unit, every character from U+1F400 to U+1F7FF counts as a square for both Connections and Wordle |
| ShareParserFacts.GlyphIsNoSpace | server/routes/shareParser.js:27-29 | no square is white space, so trimming never removes one |
| ShareParserFacts.ColonTimeOf | server/routes/shareParser.js:59 | `(\d+):(\d+)` captures exactly the minutes and the seconds written there |
| ShareParserFacts.ExpertModeOf | server/routes/shareParser.js:59 | "Solved on Expert Mode in m:ss" is captured as (m, ss) |
| ShareParserFacts.PyramidFirstPattern | server/routes/shareParser.js:66-73 | when the first pattern matches at the start with both parts below 60, it decides the time |
| ShareParserFacts.PyramidExpertMode | server/routes/shareParser.js:56-73 | "Solved on Expert Mode in m:ss" with m and ss below 60 scores m·60 + ss |
| ShareParserFacts.TotalScoreOf | server/routes/shareParser.js:100 | `Total Score:\s*(\d+(?:\.\d+)?)` reads the decimal ip.fp written after the label |
| ShareParserFacts.BracketFirstPattern | server/routes/shareParser.js:106-112 | a non-negative "Total Score" at the start decides the Bracket City score |
| ShareParserFacts.BracketTotalScore | server/routes/shareParser.js:97-113 | "Total Score: ip.fp" scores exactly the decimal ip.fp for Bracket City |
| ShareParserFacts.BracketRawIsLargest | server/routes/shareParser.js:160-167 | when the first number is 1 and some decimal exceeds 1, the raw-number fallback gives the largest decimal of the text |
| ShareParserFacts.PyramidRawSeconds | server/routes/shareParser.js:152-159 | when the first number is 0 and the second is from 1 to 59, the raw-number fallback gives the second |
| ShareParserFacts.RawFirstNumber | server/routes/shareParser.js:148-169 | for other games the raw-number fallback gives the first run of digits, or nothing when the text has none |
| ParseRoute.ParseScore | server/routes/shareParser.js:181-247 | the handler, with its reassignments of `score`, answers exactly RouteResponse, including the 500 answer when a lookup throws |
| ParseRoute.Fallback | server/routes/shareParser.js:209-236 | the fallback, reassigning `score` step by step, gives FallbackScore |
| ParseRoute.PyramidCorrection | server/routes/shareParser.js:213-218 | the Pyramid Scheme correction keeps the first number or takes the second |
| ParseRouteFacts.MissingFieldsRejected | server/routes/shareParser.js:184-186 | a request without a gameId or without a shareText is answered 400 "Missing gameId or shareText" |
| ParseRouteFacts.ScoreOrNoScoreError | server/routes/shareParser.js:199-242 | the handler answers 400 "Could not extract score..." exactly when neither the parser nor the fallback finds a score; otherwise it answers the parser's score if there is one, and the fallback's if not |
| ParseRouteFacts.ParsedWithParser | server/routes/shareParser.js:202-207 | when the parser row loaded, the handler's parse result is parseShareString on it |
| ParseRouteFacts.KeywordWithoutParser | server/routes/shareParser.js:202-204 | Keyword is parsed even when no parser row exists or its query failed |
| ParseRouteFacts.KeywordRequest | server/routes/shareParser.js:181-242 | a Keyword request "Time: t, Errors: e" is answered with the score t + 10·e |
| ParseRouteFacts.FallbackNeedsDigit | server/routes/shareParser.js:211-212 | the fallback finds a score exactly when the text holds a digit |
| ParseRouteFacts.FallbackFirstNumber | server/routes/shareParser.js:211-213 | for games without a correction, the fallback is the first decimal number of the text |
| ParseRouteFacts.PyramidFallback | server/routes/shareParser.js:215-218 | the Pyramid Scheme correction changes the score only from 0 to a second number from 1 to below 3600, and always when there is one |
| ParseRoute.BracketCorrection | server/routes/shareParser.js:220-223 | the Bracket City correction leaves the score alone for other games and for scores above 1; a changed score is a number of the text above 1 that no number of the text exceeds |
| ParseRoute.KeywordCorrection | server/routes/shareParser.js:225-234 | the Keyword correction leaves the score alone for other games and for fewer than two numbers; a changed score lies in [10, 2000) and is a + 10·b or b + 10·a for the first two numbers a and b |
| ParseRouteFacts.BracketFallback | server/routes/shareParser.js:220-223 | for Bracket City, a score above 1 stays; one of at most 1 becomes the largest number above 1 when there is one |
| ParseRouteFacts.KeywordFallback | server/routes/shareParser.js:225-234 | the Keyword band replaces the score only by a + 10b or b + 10a lying in [10, 2000), taking the larger when both lie in the band |
| Standings.AssignPoints | server/routes/standings.js:5-35 | the nested loops give exactly the competition ranking Ranking: item k gets one more than the number of items ahead of its tied group |
| StandingsFacts.RankingIsCompetition | server/routes/standings.js:5-35 | the ranking keeps the items in order; the first gets 1; a tie repeats the previous points; a new score at position k gets k + 1; points never decrease and lie in 1..k+1 |
| StandingsFacts.GroupStartIsRunStart | server/routes/standings.js:12-21 | the group of item k starts where its run of equal scores starts |
| StandingsFacts.SameRunSameStart | server/routes/standings.js:18-24 | items in one run of equal scores get the same group, so the same points |
| StandingsFacts.DistinctScoresRankByPosition | server/routes/standings.js:5-35 | without ties, item k gets k + 1 points |
| Standings.GroupByDate | server/routes/standings.js:104-110 | scoresByDate has exactly the dates of the scores, in insertion order, each with that date's scores in order |
| Standings.DatesCovered | server/routes/standings.js:104-110 | a date not among the keys has no scores |
| Standings.DateListed | server/routes/standings.js:104-110 | every score's date is a key |
| Standings.GameIds | server/routes/standings.js:72 | gameIds lists the league games' ids in order |
| Standings.BuildMap | server/routes/standings.js:73-76 | the loop builds the object MapOf, where a later row overwrites an earlier one |
| StandingsFacts.GameTypesLastWins | server/routes/standings.js:73-76 | gameMap has exactly the league's game ids, each mapped to its last row's game |
| Standings.ZeroFor | server/routes/standings.js:118-123 | the day's totals start at 0 for exactly the league's players |
| Standings.RankGame | server/routes/standings.js:126-152 | ranking one game adds each player's points from that game's ranking to the day's total, and records the ranking in gameStandings |
| Standings.AddPoints | server/routes/standings.js:148-151 | adding a ranking keeps the set of players, and adds to each player their points from the ranking |
| Standings.RankDate | server/routes/standings.js:116-153 | one date's pass gives every player DailyTotal: the points summed over that date's league games |
| Standings.RankDates | server/routes/standings.js:116-153 | the first loop gives every sorted date its daily totals and builds gameStandings as TableAfterDates |
| Standings.RankDays | server/routes/standings.js:156-170 | the second loop gives DailyRankings: each date's day data sorted ascending and ranked |
| Standings.SumDays | server/routes/standings.js:173-182 | overallPoints has exactly the players, each with the sum of their daily points |
| Standings.Username | server/routes/standings.js:187 | a player's shown name is their username when it is non-empty, else "—"; it is never empty |
| Standings.ComputeStandings | server/routes/standings.js:94-198 | the handler computes StandingsOf, and answers empty standings when there are no scores |
| StandingsFacts.ScoreBeforeAsymmetric | server/routes/standings.js:134-138 | the game comparator is a strict order for both score types, so the stable sort orders by it |
| StandingsFacts.GameOrder | server/routes/standings.js:127-138 | a game's scores on a date are sorted best first (lower or higher, by score type) and are exactly that game's scores |
| StandingsFacts.BestFirstRange | server/routes/standings.js:134-138 | in a sorted game, each earlier score is at least as good as every later one |
| StandingsFacts.GameTiesShare | server/routes/standings.js:134-141 | two equal scores of the same game and date get the same points |
| StandingsFacts.NoScoreNoGamePoints | server/routes/standings.js:127-151 | a player with no score in a game on a date gets no points from it |
| StandingsFacts.NoScoreNoDailyPoints | server/routes/standings.js:118-152 | a player with no score on a date has a daily total of 0 |
| StandingsFacts.UnplayedGameAddsNothing | server/routes/standings.js:127-128 | a game nobody played on the date is skipped and adds nothing |
| StandingsFacts.PointsForAbsent | server/routes/standings.js:148-151 | a ranking without the player adds nothing to their total |
| StandingsFacts.SortedDatesSpec | server/routes/standings.js:116 | the dates are processed once each, in ascending order, and are exactly the dates of the scores |
| StandingsFacts.DistinctDatesDistinct | server/routes/standings.js:104-110 | the keys of scoresByDate are distinct |
| StandingsFacts.DistinctDatesCome | server/routes/standings.js:104-110 | every key of scoresByDate is the date of some score |
| StandingsFacts.DayBeforeAsymmetric | server/routes/standings.js:165 | the daily comparator is a strict order |
| StandingsFacts.DayRankIsMembers | server/routes/standings.js:159-168 | a day's ranking is a permutation of the players' day data, in ascending order of total |
| StandingsFacts.OverallBeforeAsymmetric | server/routes/standings.js:189 | the overall comparator is a strict order |
| StandingsFacts.StandingsShape | server/routes/standings.js:156-189 | there is one daily ranking per date of the scores, in date order; the overall standings are a permutation of the players' rows, in ascending order of total |
| StandingsFacts.GameStandingsSpec | server/routes/standings.js:114-152 | gameStandings has an entry for game g and date d exactly when g is a league game played on d, and it is the points map of that game's ranking; no game has an empty entry |
| StandingsFacts.AfterGamesKeys | server/routes/standings.js:126-147 | after one date, gameStandings has a game exactly when it had it or the game was played that date |
| StandingsFacts.AfterGamesKeeps | server/routes/standings.js:144-147 | ranking a date leaves the entries of the other dates alone |
| StandingsFacts.AfterGamesOnly | server/routes/standings.js:144-147 | an entry after a date's pass was there before, or is for that date and a game played on it |
| StandingsFacts.AfterGamesSets | server/routes/standings.js:144-151 | each league game played on the date gets its ranking's points map |
| StandingsFacts.AfterDatesOnly | server/routes/standings.js:116-153 | every entry of gameStandings is for a processed date and a league game played on it |
| StandingsFacts.AfterDatesSets | server/routes/standings.js:116-153 | every league game played on a processed date has that date's entry |
| StandingsFacts.AfterDatesNonEmpty | server/routes/standings.js:144-147 | no game in gameStandings has an empty set of dates |
| StandingsFacts.PlayedHasDate | server/routes/standings.js:127-128 | a game counts as played on a date only if some score has that date |
| Sorting.SortByPermutation | server/routes/standings.js:134-138 | sorting is a permutation of its input |
| Sorting.SortBySorted | server/routes/standings.js:134-138 | for a strict-order comparator, the sort's result is ordered by it |
| Sorting.SortByMembers | server/routes/standings.js:165 | sorting keeps exactly the same members |
| Sorting.SortByStable | server/routes/standings.js:134-138 | the sort is stable: elements that are mutually tied under the comparator (such as equal scores) leave it in the order they entered it |
| Sorting.SortByDistinct | server/routes/standings.js:116 | sorting distinct dates keeps them distinct |
| Seqs.MapOfSpec | server/routes/standings.js:73-76 | an object built by assigning in a loop has exactly the keys of the rows, and each key maps to its last row's value |
| Seqs.Max | server/routes/shareParser.js:165 | `Math.max(...nums)` is a member of the list and at least every member |
| Seqs.FilterSpec | server/routes/standings.js:127 | `filter` keeps exactly the elements that pass the test |
| Seqs.FilterConcat | server/routes/standings.js:109 | filtering distributes over concatenation |
| Text.JoinSplit | server/routes/shareParser.js:26 | joining the parts of `split('\n')` gives back the text |
| Text.SplitJoin | server/routes/shareParser.js:26 | splitting lines that hold no newline, once joined, gives back the lines |
| Text.TrimKeeps | server/routes/shareParser.js:27 | `trim` keeps every stretch that starts and ends with a non-space |
| Text.StrLtTotal | server/routes/standings.js:116 | the default sort order of strings is total |
| Text.StrLtTransitive | server/routes/standings.js:116 | the default sort order of strings is transitive |
| Text.LeadUnitD83D | extension/content-nyt-games.js:45 | every character from U+1F400 to U+1F7FF has 0xD83D as its first UTF-16 code unit, so it is in any class holding that unit |
| Text.Utf16Length | extension/content-nyt-games.js:42 | `t.length` counts between one and two code units per character |
| Matchers.DigitsAt | server/routes/shareParser.js:6 | `\d+` at a position matches exactly when a digit is there, and takes the longest run of digits |
| Matchers.DecimalAt | server/routes/shareParser.js:211 | `\d+(?:\.\d+)?` matches exactly at a digit, and its value is non-negative |
| Matchers.DecimalAtOf | server/routes/shareParser.js:211 | on "ip.fp" not followed by a digit, the decimal matcher reads the value ip.fp |
| Matchers.LeftmostSpec | server/routes/shareParser.js:67 | `match` finds nothing exactly when no position matches, and otherwise the match at the first position that does |
| Matchers.LeftmostAt | server/routes/shareParser.js:67 | the first position that matches decides `match` |
| Matchers.RightmostSpec | server/routes/shareParser.js:7 | the search behind a greedy `.*` takes the last position where the rest matches |
| Matchers.FirstDigitRun | server/routes/shareParser.js:149 | `match(/\d+/)` is the first run of digits |
| Matchers.DecimalsEmpty | server/routes/shareParser.js:211-212 | the text has no decimal number exactly when it has no run of digits |
| Matchers.Decimals | server/routes/shareParser.js:211 | every number the global decimal match yields is non-negative |
| Matchers.ParseFloat | server/routes/shareParser.js:109 | on a text that does not spell `Infinity` after its leading spaces and sign, `parseFloat` gives NaN exactly when no digit, or point and digit, follows them |
| PyNumbers.PyIntOfDigits | backfill/backfill_league.py:188 | `int()` on a run of digits is its decimal value |
| PyNumbers.PyIntOfNegative | backfill/backfill_league.py:188 | `int()` on a minus sign and digits is the negated value |
| PyNumbers.PyIntUnderscore | backfill/backfill_league.py:188 | `int()` drops one underscore between two digit groups, and rejects two in a row, a trailing one and a leading one |
| PyNumbers.PyInt | backfill/backfill_league.py:188 | `int()` on ASCII digits succeeds only on a non-empty text without a point |
| PyNumbers.PyFloatOfDecimal | backfill/backfill_league.py:187 | `float()` on "ip.fp" is the decimal ip.fp |
| BackfillCells.ParseHandicap | backfill/backfill_league.py:52-63 | a handicap, when there is one, lies in (0, 1] |
| BackfillCells.HandicapShape | backfill/backfill_league.py:56-59 | a handicap cell, once stripped, starts with a digit and ends with "%" |
| BackfillCells.HandicapOfPercent | backfill/backfill_league.py:57-63 | "n%" is n/100 when 0 < n ≤ 100, and no handicap otherwise |
| BackfillCells.HandicapOfDecimalPercent | backfill/backfill_league.py:57-63 | "ip.fp%" is (ip.fp)/100 when that percentage lies in (0, 100], and no handicap otherwise |
| BackfillCells.PercentOf | backfill/backfill_league.py:57 | the percentage pattern matches only a digit-led text ending in "%", and reads a non-negative number |
| BackfillCells.GetsHandicapReversal | backfill/backfill_league.py:43-49 | only league players get a handicap reversal |
| BackfillCells.ReversalRule | backfill/backfill_league.py:37-49 | sary and stolowd always get the reversal; sal exactly before 2024-11-24; everyone else never |
| BackfillCells.ParseDate | backfill/backfill_league.py:66-77 | an empty cell is never a date |
| BackfillCells.IsDate | backfill/backfill_league.py:103 | a cell counts as a date only when it is non-empty and one of the three formats accepts its stripped text |
| BackfillCells.ParseScoreCell | backfill/backfill_league.py:178-190 | a blank cell gives no score; a score is a float exactly when the stripped cell holds a point, and is then float() of the stripped cell, otherwise int() of it |
| BackfillCells.ScoreOfDigits | backfill/backfill_league.py:185-188 | a cell of digits is the integer it spells |
| BackfillCells.ScoreOfNegative | backfill/backfill_league.py:185-188 | "-digits" is the negative integer |
| BackfillCells.ScoreOfDecimal | backfill/backfill_league.py:185-187 | "ip.fp" is the float ip.fp |
| BackfillCells.ScoreOfWord | backfill/backfill_league.py:189-190 | a cell that starts with a letter gives no score |
| BackfillCells.ReverseHandicap | backfill/backfill_league.py:269-271 | with a positive handicap the score becomes the value whose product with the handicap is the old score; otherwise it stays |
| BackfillCells.ReverseNotBelow | backfill/backfill_league.py:269-271 | reversing a handicap in (0, 1] never lowers a non-negative score |
| BackfillCells.WordleMap | backfill/backfill_league.py:273-277 | -1 becomes 7 (failed), 0..5 remaining slots become 1..6 guesses, other values stay |
| BackfillCells.WordleGuesses | backfill/backfill_league.py:276-277 | v remaining slots become 6 - v guesses |
| BackfillCells.WordleInjective | backfill/backfill_league.py:273-277 | the Wordle conversion never merges two sheet values |
| BackfillCells.ConnectionsMap | backfill/backfill_league.py:279-283 | 0 (failed) becomes 4 mistakes, 1..5 become 4..0 mistakes, other values stay |
| BackfillCells.ConnectionsMistakes | backfill/backfill_league.py:279-283 | v becomes 5 - v mistakes, and a fail is stored like a sheet value of 1 |
| BackfillCells.StoredValue | backfill/backfill_league.py:264-283 | a Wordle value is 7, 1..6 or a value outside the sheet's range; games other than Wordle, Connections or a reversed crossword keep the parsed value |
| BackfillCells.SlugOf | backfill/backfill_league.py:256-258 | a game's slug never contains a blank, a non-empty game name gives a non-empty slug, and a name outside the table keeps its length and every character but its blanks |
| BackfillSheet.PyAt | backfill/backfill_league.py:249-255 | Python indexing succeeds exactly for -len ≤ i < len, and indexes from the front for non-negative i |
| BackfillSheet.HeaderAtSpec | backfill/backfill_league.py:85-107 | the header is found at (h, c) exactly when row h is the first holding "puz", "player" and "cat.", and c is its first date cell |
| BackfillSheet.HeaderAtNone | backfill/backfill_league.py:96-107 | no header is found exactly when no row is a header, or the first header row has no date cell |
| BackfillSheet.FindHeader | backfill/backfill_league.py:89-95 | the loop returns the first header row |
| BackfillSheet.FirstDateCol | backfill/backfill_league.py:100-105 | the loop returns the first cell that parses as a date |
| BackfillSheet.FindHandicapRow | backfill/backfill_league.py:110-119 | the loop upward from the header returns HandicapFrom |
| BackfillSheet.HandicapFromSpec | backfill/backfill_league.py:109-119 | the handicap row is the nearest row above the header that mentions "handicap", or the header row minus 2 when there is none |
| BackfillSheet.HandicapFromBelow | backfill/backfill_league.py:110-119 | the upward search stops at the lowest mentioning row, with none between it and the start |
| BackfillSheet.FindHeaderAndHandicap | backfill/backfill_league.py:85-121 | find_header_and_handicap gives HeaderMeta: header row, handicap row, first date column, or none |
| BackfillSheet.HeaderMeta | backfill/backfill_league.py:85-121 | the header row and first date column it returns point inside the sheet |
| BackfillSheet.FindStartingWordsRow | backfill/backfill_league.py:124-129 | the first row at or after the start that mentions "start w" |
| BackfillSheet.DateRunCell | backfill/backfill_league.py:150-158 | the i-th date of the run is parse_date of header column first + i, and that cell is a date |
| BackfillSheet.DateRunLongest | backfill/backfill_league.py:150-158 | the run is the longest one from the first date column: the column right after it is past the row's end or is not a date |
| BackfillSheet.ExtractDates | backfill/backfill_league.py:150-158 | the dates are the run of parsed date cells from the first date column, up to the first cell that is not a date |
| BackfillSheet.ExtractHandicaps | backfill/backfill_league.py:132-147 | one handicap or none per date, read from the handicap row under the date's column |
| BackfillSheet.ExtractStartingWords | backfill/backfill_league.py:161-175 | the (date, word) pairs of the words row, one column before each date. It raises IndexError exactly when the first date column is 0, the words row is empty and there are dates |
| BackfillSheet.WordAt | backfill/backfill_league.py:170-174 | reading one word cell fails exactly when Python's negative index fails |
| BackfillSheet.WordsUnderDates | backfill/backfill_league.py:169-175 | the loop over the dates gives WordsOfRow |
| BackfillSheet.LayoutOfSpec | backfill/backfill_league.py:229-242 | a detected layout has its "raw" cell in the category column, with the player and the game in the two columns before it |
| BackfillSheet.DetectLayout | backfill/backfill_league.py:224-244 | the loop over at most five rows below the header returns the first layout found |
| BackfillSheet.RowLimit | backfill/backfill_league.py:260-263 | the cell loop stops at the last date or the end of the row, whichever comes first |
| BackfillSheet.RowScores | backfill/backfill_league.py:260-289 | the scores of a row are RowSpec of its cells |
| BackfillSheet.CellValue | backfill/backfill_league.py:264-283 | a cell's stored value is StoredValue with the date's handicap, or no handicap past the end of the list |
| BackfillSheet.Max3 | backfill/backfill_league.py:249 | the maximum of the three columns |
| BackfillSheet.RowInfoOfSpec | backfill/backfill_league.py:249-259 | a row fails only with IndexError; it is kept exactly when its category is "raw", its game is non-empty and its player belongs to the league |
| BackfillSheet.ReadRowInfo | backfill/backfill_league.py:249-259 | the row guards in order give RowInfoOf |
| BackfillSheet.ProcessRows | backfill/backfill_league.py:247-289 | the loop over the rows below the header gives RowsSpec, stopping at the first error |
| BackfillSheet.EmitRow | backfill/backfill_league.py:249-289 | one row's pass gives RowEmit |
| BackfillFacts.ScoredColumns | backfill/backfill_league.py:260-266 | the scored columns are, in increasing order, exactly the cells that parse |
| BackfillFacts.RowSpecColumns | backfill/backfill_league.py:260-289 | a row emits one score per parsing cell, in column order, with that column's date, the game's slug, the player and the stored value |
| BackfillFacts.RowSpecDatesDistinct | backfill/backfill_league.py:260-289 | when the dates are distinct, one row never emits two scores for the same date |
| BackfillFacts.EmitWithScores | backfill/backfill_league.py:249-289 | a row fails exactly when its guards fail, with the same error; every score it emits carries the row's player and slug and one of the dates |
| BackfillFacts.WordsColumns | backfill/backfill_league.py:169-175 | one (date, word) pair per non-empty word cell, in column order |
| BackfillFacts.ColumnWordsKept | backfill/backfill_league.py:172-173 | a kept word is non-empty and is not the "start w/:" label |
| BackfillFacts.RowEmitFacts | backfill/backfill_league.py:247-289 | a row fails only with IndexError, and each of its scores is for a league player and a date of the sheet |
| BackfillFacts.RowsSpecFacts | backfill/backfill_league.py:247-289 | the row loop fails only with IndexError, and each score is for a league player and a date of the sheet |
| BackfillFacts.StartWordsFacts | backfill/backfill_league.py:214-220 | reading the words fails only with IndexError; each pair has a sheet date and a non-empty word that is not the label |
| BackfillFacts.BodyFacts | backfill/backfill_league.py:210-291 | after the header, the file fails only for lack of a layout or with IndexError, and its output keeps the score and word facts |
| BackfillFacts.FileErrors | backfill/backfill_league.py:199-244 | process_file fails only for lack of a header, of dates or of a layout, or with IndexError. It fails for lack of a header exactly when HeaderAt finds none, and for lack of dates exactly when the header has an empty run of dates |
| BackfillFacts.FileOutFacts | backfill/backfill_league.py:193-291 | every score of a file is for a league player and one of the file's dates, and every word pair has a file date and a kept word |
| BackfillFile.ProcessFile | backfill/backfill_league.py:193-291 | the method computes FileSpec: each raised error becomes a Failure |
| BackfillFile.ProcessBody | backfill/backfill_league.py:210-291 | the part after the dates computes BodySpec |
| BackfillFile.ReadStartWords | backfill/backfill_league.py:214-220 | the starting words, or none when no words row exists |
| Dedup.Deduplicate | backfill/backfill_league.py:353-361 | the loop with the seen set keeps the first score of each key: FirstOccurrences |
| Dedup.GroupByKey | backfill/backfill_league.py:335-338 | by_key groups the scores by key in order: GroupMap |
| Dedup.DuplicateKeys | backfill/backfill_league.py:339 | the duplicates are the keys of the groups with more than one score |
| Dedup.FirstOccurrencesKeys | backfill/backfill_league.py:353-361 | the kept list has distinct keys and exactly the keys of the input |
| Dedup.FirstOccurrencesAt | backfill/backfill_league.py:353-361 | each kept element is the input element at an index of FirstIndices, in order |
| Dedup.FirstIndicesSpec | backfill/backfill_league.py:353-361 | an index is kept exactly when no earlier element has the same key |
| Dedup.FirstIndicesIncreasing | backfill/backfill_league.py:353-361 | the kept indices are increasing, so the order of the input is kept |
| Dedup.FirstOccurrencesOfDistinct | backfill/backfill_league.py:353-361 | without duplicate keys nothing is dropped |
| Dedup.FirstOccurrencesIdempotent | backfill/backfill_league.py:353-361 | deduplicating twice is deduplicating once |
| Dedup.KeysSpec | backfill/backfill_league.py:328-332 | the seen set holds exactly the keys of the elements so far |
| Dedup.GroupSpec | backfill/backfill_league.py:335-338 | a group holds only elements of its key, and is non-empty exactly for keys that occur |
| Dedup.GroupTwo | backfill/backfill_league.py:339 | a group has more than one element exactly when two elements share the key |
| Dedup.GroupMapSpec | backfill/backfill_league.py:335-338 | by_key has exactly the keys that occur, each with its group |
| Dedup.DuplicatedSpec | backfill/backfill_league.py:339 | a key is a duplicate exactly when two elements share it |
| Dedup.DuplicatedNone | backfill/backfill_league.py:340 | there are no duplicates exactly when the keys are distinct |
| BackfillRun.Run | backfill/backfill_league.py:316-368 | main's loop and check compute RunSpec |
| BackfillRun.GatherFiles | backfill/backfill_league.py:320-332 | the loop over the files computes Merged, stopping at the first file that fails |
| BackfillRun.MergeWords | backfill/backfill_league.py:328-332 | the word loop keeps each (date, word) pair once, the first time it appears, and the seen set grows by the new keys |
| BackfillRun.GatheredSucceeds | backfill/backfill_league.py:320-327 | gathering succeeds exactly when every file that exists is processed without error |
| BackfillRun.GatheredFrom | backfill/backfill_league.py:320-332 | every gathered score and (date, word) pair comes from a file that exists |
| BackfillRun.RunKeysDistinct | backfill/backfill_league.py:316-368 | whatever main emits has no two scores with the same (player, game, date), so the unique constraint holds, and no (date, word) pair twice |
| BackfillRun.RunDeduplicated | backfill/backfill_league.py:351-361 | with --deduplicate main keeps the first score of each key and the first of each word pair |
| BackfillRun.RunRefused | backfill/backfill_league.py:339-368 | without --deduplicate main refuses exactly when two scores share a key, and names exactly the keys that two scores share |
| BackfillRun.FileOutcomes | backfill/backfill_league.py:320-324 | one outcome per file given |
| GameDetection.GetGameSlug | extension/content-nyt-games.js:24-37 | the slug is that of the first table entry whose prefix the normalised path matches, and null exactly when it matches none |
| GameDetection.NormalizePath | extension/content-nyt-games.js:32 | one trailing slash is removed, and an empty path becomes "/" |
| GameDetection.SlugOfPathSpec | extension/content-nyt-games.js:33-36 | no slug exactly when no prefix matches; otherwise the slug of the first matching entry |
| GameDetection.PathMatchesBoundary | extension/content-nyt-games.js:34 | a prefix matches only the path itself or a path going on with "/" after it |
| GameDetection.WordleXIsNotWordle | extension/content-nyt-games.js:34 | "/games/wordleX" is not a Wordle page |
| GameDetection.TableDistinct | extension/content-nyt-games.js:6-22 | the table's prefixes are distinct |
| GameDetection.TableSlashes | extension/content-nyt-games.js:6-22 | every prefix has its two slashes near its start, so no prefix matches below another |
| GameDetection.MatchUnique | extension/content-nyt-games.js:33-36 | at most one prefix of the table matches a path, so the table's order never matters |
| GameDetection.SlugOfMatchingPath | extension/content-nyt-games.js:33-36 | a path matching an entry's prefix gets that entry's slug |
| GameDetection.PrefixOwnGame | extension/content-nyt-games.js:24-37 | every prefix of the table is detected as its own game |
| GameDetection.SpellingBeeEntries | extension/content-nyt-games.js:10-11 | both /games/spelling-bee and /puzzles/spelling-bee map to spelling-bee |
| GameDetection.PagesBelowPrefix | extension/content-nyt-games.js:32-35 | every page below a prefix, with or without a trailing slash, is detected as that prefix's game |
| GameDetection.LooksLikeShareText | extension/content-nyt-games.js:39-57 | only a non-empty string whose trimmed form is at least 10 code units long can look like share text |
| GameDetection.MarkerLooksShared | extension/content-nyt-games.js:43-55 | a long enough text holding any of the markers looks like share text |
| GameDetection.ExpertModeLooksShared | extension/content-nyt-games.js:49 | any text holding "Solved on Expert Mode in m:ss" looks like share text |
| GameDetection.TotalScoreLooksShared | extension/content-nyt-games.js:53 | any text holding "Total Score: n" looks like share text |
| GameDetection.KeywordLooksShared | extension/content-nyt-games.js:55 | a long enough text with "Keyword", in any case, and a digit anywhere looks like share text |
| GameDetection.AnyEmojiLooksShared | extension/content-nyt-games.js:45 | since the square class is matched by code unit, any long enough text holding a character from U+1F400 to U+1F7FF looks like share text |
| GameDetection.FoundInText | extension/content-nyt-games.js:41 | a word that starts and ends with a non-space survives `trim` in place |
| GameDetection.InTrimmed | extension/content-nyt-games.js:41 | a literal occurring in the text occurs in its trimmed form |

## Left out

- Database access (Supabase) and Express: the rows the queries return are inputs. The league lookup and its 404, and the scores query's 500, of GET /standings are not modelled. The response's `league` field is not built.
- The parser row's own regular expression and `new URL(...)`: they are evaluated by the Host parameter, not modelled.
- A `try`/`catch` that catches anything but a bad pattern, a bad URL or a failed lookup cannot happen on the modelled inputs, so it is not modelled.
- Request bodies whose fields are not strings: gameId and shareText are optional strings.
- The `gameSlug === 'keyword'` test comes before the `typeof shareText === 'string'` test. The model's share text is always a string.
- Standings.RankGame: JavaScript writes NaN into dailyTotals for a user who scored but is not a league player. That value is never read. The model skips the write, so its daily totals hold the league players only.
- JavaScript's NaN in general: `Number(score)` is given as a real, so a score that is not a number is not modelled.
- Floating point: every number is an exact real. This covers `parseFloat`, `Number`, `val / h` and the 2000/3600 comparisons.
- Python's `round(val, 4)` on stored float scores: not modelled, because real numbers are not rounded.
- Text.LowerStr: Python's `lower()` is modelled on ASCII letters only.
- Matchers.ParseFloat: JavaScript's `parseFloat` also reads the word `Infinity` after the leading spaces and an optional sign, and returns ±Infinity; the model, whose numbers are reals, returns NaN (None) for it. This matters only for a capture of the parser row's own pattern (shareParser.js:122-124), where JavaScript would return an infinite score.
- BackfillCells.PercentOf: decimal digits are ASCII only; Python's `\d` also matches the other Unicode decimal digits (category Nd), so a cell such as "٧٥%" is a handicap in Python and none here.
- BackfillCells.ParseHandicap: decimal digits are ASCII only, as for PercentOf; Python's `float()` also reads other Unicode decimal digits.
- BackfillCells.ParseScoreCell: decimal digits are ASCII only; Python's `int()` and `float()` also read other Unicode decimal digits, so "١٢" is 12 in Python and no score here.
- PyNumbers.PyInt: decimal digits are ASCII only; Python also accepts other Unicode decimal digits.
- PyNumbers.PyFloat: decimal digits are ASCII only; Python also accepts other Unicode decimal digits.
- Text.StrLt: compares code points, where JavaScript's default `.sort()` compares UTF-16 code units; the two orders differ only on characters above U+FFFF, which dates do not hold.
- `datetime.strptime` and `strftime` are the Strptime parameter: the formats it accepts belong to Python's library.
- CSV reading (`load_csv_rows`) and file existence: each file is given as its rows, or none when it does not exist.
- The command line, and the `--sql`, `--ids`, `--allow-placeholders` and `-o` outputs of backfill main: argument parsing and the generated output are I/O.
- The messages printed to stderr are not modelled. These are the skipped-file line, the duplicate sources (up to 20, with their file names), the warning count, and the `_source` field that feeds them. BackfillRun.Run gives the set of duplicate keys instead.
- BackfillRun.Run: a file's SystemExit message is kept without the file path in front of it. An uncaught IndexError, which ends the Python run, becomes the outcome "IndexError: list index out of range".
- Which frame's location getGameSlug reads (`window.top` or its own, and the exception around it): the pathname is a parameter.
- The rest of content-nyt-games.js (the DOM, the clipboard, the button): user-interface code.
