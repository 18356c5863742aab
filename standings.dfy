/**
 * The standings engine of GET /standings/:leagueId: competition ranking
 * ("1224") of each league game per date, daily totals ranked per date, and
 * overall totals summed over the daily rankings. The database fetches are
 * replaced by their results, given as inputs.
 */
module Standings {
  import opened Wrappers
  import opened Seqs
  import opened Text
  import opened Sorting

  /** `{ ...item, points }`: an item with the points it was given. */
  datatype Ranked<T> = Ranked(item: T, points: nat)

  /** A row of the scores table, with `Number(score)` already applied. */
  datatype ScoreRow = ScoreRow(userId: string, gameId: string, date: string, score: real)

  /** A row of league_game; `scoreType` is None when the joined game is null. */
  datatype LeagueGame = LeagueGame(gameId: string, scoreType: Option<string>)

  datatype DayEntry = DayEntry(userId: string, totalPoints: nat)
  datatype DayRanking = DayRanking(date: string, rankings: seq<Ranked<DayEntry>>)
  datatype OverallEntry = OverallEntry(userId: string, username: string, totalPoints: nat)

  /** gameStandings: game id to date to user id to points. */
  type Table = map<string, map<string, map<string, nat>>>

  datatype Result = Result(overall: seq<OverallEntry>, daily: seq<DayRanking>, games: Table)

  // ---------------------------------------------------------------------------
  // assignPoints

  /**
   * The index where the run of equal scores containing item i begins, so the
   * number of items ranked ahead of item i's tied group.
   */
  function GroupStart<T, K(==)>(items: seq<T>, score: T -> K, i: nat): (g: nat)
    requires i < |items|
    ensures g <= i
  {
    if i == 0 then 0
    else if score(items[i]) == score(items[i - 1]) then GroupStart(items, score, i - 1)
    else i
  }

  /** Competition ranking: each item gets one more than the number ahead of its group. */
  function Ranking<T, K(==)>(items: seq<T>, score: T -> K): seq<Ranked<T>>
  {
    seq(|items|, k requires 0 <= k < |items| => Ranked(items[k], GroupStart(items, score, k) + 1))
  }

  /** Inside a run of equal scores that starts at i, every item's group starts at i. */
  lemma {:induction false} GroupInside<T, K>(items: seq<T>, score: T -> K, i: nat, k: nat)
    requires i <= k < |items|
    requires i == 0 || score(items[i]) != score(items[i - 1])
    requires forall m :: i <= m <= k ==> score(items[m]) == score(items[i])
    ensures GroupStart(items, score, k) == i
  {
    if k > i {
      GroupInside(items, score, i, k - 1);
    }
  }

  /** result holds the first n entries of the ranking. */
  ghost predicate RankedUpTo<T, K>(result: seq<Ranked<T>>, items: seq<T>, score: T -> K, n: nat)
  {
    && n <= |items|
    && |result| == n
    && forall k :: 0 <= k < n ==> result[k] == Ranked(items[k], GroupStart(items, score, k) + 1)
  }

  lemma {:induction false} RankedSnoc<T, K>(result: seq<Ranked<T>>, items: seq<T>, score: T -> K, n: nat, entry: Ranked<T>)
    requires RankedUpTo(result, items, score, n) && n < |items|
    requires entry == Ranked(items[n], GroupStart(items, score, n) + 1)
    ensures RankedUpTo(result + [entry], items, score, n + 1)
  {
    var r := result + [entry];
    forall k | 0 <= k < n + 1 ensures r[k] == Ranked(items[k], GroupStart(items, score, k) + 1) {
      if k < n {
        assert r[k] == result[k];
      }
    }
  }

  lemma {:induction false} RankedAll<T, K>(result: seq<Ranked<T>>, items: seq<T>, score: T -> K)
    requires RankedUpTo(result, items, score, |items|)
    ensures result == Ranking(items, score)
  {
    var r := Ranking(items, score);
    assert |result| == |r|;
    forall k | 0 <= k < |r| ensures result[k] == r[k] {
    }
  }

  method AssignPoints<T, K(==)>(rankedItems: seq<T>, score: T -> K) returns (result: seq<Ranked<T>>)
    ensures result == Ranking(rankedItems, score)
  {
    if |rankedItems| == 0 {
      return [];
    }
    result := [];
    var currentRank := 1;
    var i := 0;
    while i < |rankedItems|
      invariant 0 <= i <= |rankedItems|
      invariant currentRank == i + 1
      invariant RankedUpTo(result, rankedItems, score, i)
      invariant 0 < i < |rankedItems| ==> score(rankedItems[i]) != score(rankedItems[i - 1])
    {
      var currentScore := score(rankedItems[i]);
      var tiedGroup := [rankedItems[i]];
      var j := i + 1;
      while j < |rankedItems| && score(rankedItems[j]) == currentScore
        invariant i < j <= |rankedItems|
        invariant |tiedGroup| == j - i
        invariant forall m :: 0 <= m < j - i ==> tiedGroup[m] == rankedItems[i + m]
        invariant forall m :: i <= m < j ==> score(rankedItems[m]) == currentScore
      {
        tiedGroup := tiedGroup + [rankedItems[j]];
        j := j + 1;
      }
      var points := currentRank;
      for m := 0 to |tiedGroup|
        invariant RankedUpTo(result, rankedItems, score, i + m)
      {
        GroupInside(rankedItems, score, i, i + m);
        var entry := Ranked(tiedGroup[m], points);
        RankedSnoc(result, rankedItems, score, i + m, entry);
        result := result + [entry];
      }
      currentRank := currentRank + |tiedGroup|;
      i := j;
    }
    RankedAll(result, rankedItems, score);
  }

  // ---------------------------------------------------------------------------
  // Keys, comparators and filters of the handler

  function ScoreOf(s: ScoreRow): real { s.score }
  function TotalOf(e: DayEntry): nat { e.totalPoints }
  function RowUser(s: ScoreRow): string { s.userId }
  function EntryUser(e: DayEntry): string { e.userId }

  function DateIs(d: string): ScoreRow -> bool { (s: ScoreRow) => s.date == d }
  function GameIs(g: string): ScoreRow -> bool { (s: ScoreRow) => s.gameId == g }

  /** `isLowerBetter ? aScore - bScore : bScore - aScore` is negative. */
  function ScoreBefore(lowerBetter: bool): (ScoreRow, ScoreRow) -> bool
  {
    (a: ScoreRow, b: ScoreRow) => if lowerBetter then a.score < b.score else b.score < a.score
  }

  /** `a.totalPoints - b.totalPoints` is negative. */
  predicate DayBefore(a: DayEntry, b: DayEntry) { a.totalPoints < b.totalPoints }
  predicate OverallBefore(a: OverallEntry, b: OverallEntry) { a.totalPoints < b.totalPoints }

  /** `userMap[userId]?.username || '—'`. */
  function Username(users: map<string, string>, u: string): (name: string)
    ensures |name| > 0
    ensures u in users && |users[u]| > 0 ==> name == users[u]
  {
    if u in users && |users[u]| > 0 then users[u] else "—"
  }

  // ---------------------------------------------------------------------------
  // Specification of the handler, one function per dictionary it builds

  function GameIds(games: seq<LeagueGame>): (ids: seq<string>)
    ensures |ids| == |games|
    ensures forall k :: 0 <= k < |games| ==> ids[k] == games[k].gameId
  {
    seq(|games|, k requires 0 <= k < |games| => games[k].gameId)
  }

  function GameKey(g: LeagueGame): string { g.gameId }
  function GameType(g: LeagueGame): Option<string> { g.scoreType }

  /** gameMap: a later row for the same game id overwrites an earlier one. */
  function GameTypes(games: seq<LeagueGame>): map<string, Option<string>>
  {
    MapOf(games, GameKey, GameType)
  }

  predicate IsLowerBetter(types: map<string, Option<string>>, g: string)
  {
    g in types && types[g] == Some("lower_better")
  }

  /** The keys of scoresByDate, in insertion order. */
  function DistinctDates(scores: seq<ScoreRow>): seq<string>
  {
    if |scores| == 0 then []
    else
      var prev := DistinctDates(scores[..|scores| - 1]);
      var d := scores[|scores| - 1].date;
      if d in prev then prev else prev + [d]
  }

  /** `Object.keys(scoresByDate).sort()`. */
  function SortedDates(scores: seq<ScoreRow>): seq<string>
  {
    SortBy(DistinctDates(scores), StrLt)
  }

  /** The scores of one game on one date, sorted best first and ranked. */
  function GameRanking(dateScores: seq<ScoreRow>, g: string, lowerBetter: bool): seq<Ranked<ScoreRow>>
  {
    Ranking(SortBy(Filter(dateScores, GameIs(g)), ScoreBefore(lowerBetter)), ScoreOf)
  }

  /** The sum of the points the ranking gives to user u. */
  function PointsFor<T>(ranked: seq<Ranked<T>>, who: T -> string, u: string): nat
  {
    if |ranked| == 0 then 0
    else
      var last := ranked[|ranked| - 1];
      PointsFor(ranked[..|ranked| - 1], who, u) + (if who(last.item) == u then last.points else 0)
  }

  function RankedUser(e: Ranked<ScoreRow>): string { e.item.userId }
  function RankedPoints(e: Ranked<ScoreRow>): nat { e.points }

  /** gameStandings[gameId][date]: user id to points, a later entry overwriting. */
  function PointsMap(ranked: seq<Ranked<ScoreRow>>): map<string, nat>
  {
    MapOf(ranked, RankedUser, RankedPoints)
  }

  /** dailyTotals[date][u] after the league games in gameIds were ranked. */
  function DailyTotal(dateScores: seq<ScoreRow>, gameIds: seq<string>,
                      types: map<string, Option<string>>, u: string): nat
  {
    if |gameIds| == 0 then 0
    else
      var g := gameIds[|gameIds| - 1];
      DailyTotal(dateScores, gameIds[..|gameIds| - 1], types, u)
        + PointsFor(GameRanking(dateScores, g, IsLowerBetter(types, g)), RowUser, u)
  }

  /** gameStandings after one league game was ranked on date d; skipped when nobody played it. */
  function TableStep(t: Table, d: string, dateScores: seq<ScoreRow>, g: string, lowerBetter: bool): Table
  {
    if |Filter(dateScores, GameIs(g))| == 0 then t
    else
      var forGame := if g in t then t[g] else map[];
      t[g := forGame[d := PointsMap(GameRanking(dateScores, g, lowerBetter))]]
  }

  /** gameStandings after the games in gameIds were ranked on date d. */
  function TableAfterGames(t: Table, d: string, dateScores: seq<ScoreRow>, gameIds: seq<string>,
                           types: map<string, Option<string>>): Table
  {
    if |gameIds| == 0 then t
    else
      var g := gameIds[|gameIds| - 1];
      TableStep(TableAfterGames(t, d, dateScores, gameIds[..|gameIds| - 1], types), d, dateScores,
                g, IsLowerBetter(types, g))
  }

  /** gameStandings after the dates in dates were processed. */
  function TableAfterDates(scores: seq<ScoreRow>, dates: seq<string>, gameIds: seq<string>,
                           types: map<string, Option<string>>): Table
  {
    if |dates| == 0 then map[]
    else
      var d := dates[|dates| - 1];
      TableAfterGames(TableAfterDates(scores, dates[..|dates| - 1], gameIds, types),
                      d, Filter(scores, DateIs(d)), gameIds, types)
  }

  /** dayData for one date: each league player with their daily total. */
  function DayData(dateScores: seq<ScoreRow>, gameIds: seq<string>,
                   types: map<string, Option<string>>, userIds: seq<string>): seq<DayEntry>
  {
    seq(|userIds|, k requires 0 <= k < |userIds| =>
      DayEntry(userIds[k], DailyTotal(dateScores, gameIds, types, userIds[k])))
  }

  function DayRank(dateScores: seq<ScoreRow>, gameIds: seq<string>,
                   types: map<string, Option<string>>, userIds: seq<string>): seq<Ranked<DayEntry>>
  {
    Ranking(SortBy(DayData(dateScores, gameIds, types, userIds), DayBefore), TotalOf)
  }

  function DailyRankings(scores: seq<ScoreRow>, dates: seq<string>, gameIds: seq<string>,
                         types: map<string, Option<string>>, userIds: seq<string>): seq<DayRanking>
  {
    seq(|dates|, i requires 0 <= i < |dates| =>
      DayRanking(dates[i], DayRank(Filter(scores, DateIs(dates[i])), gameIds, types, userIds)))
  }

  /** overallPoints[u]: the sum of u's daily ranking points. */
  function OverallTotal(days: seq<DayRanking>, u: string): nat
  {
    if |days| == 0 then 0
    else OverallTotal(days[..|days| - 1], u) + PointsFor(days[|days| - 1].rankings, EntryUser, u)
  }

  function OverallRows(days: seq<DayRanking>, userIds: seq<string>, users: map<string, string>): seq<OverallEntry>
  {
    seq(|userIds|, k requires 0 <= k < |userIds| =>
      OverallEntry(userIds[k], Username(users, userIds[k]), OverallTotal(days, userIds[k])))
  }

  /** The response body of the handler, apart from the league row. */
  function StandingsOf(scores: seq<ScoreRow>, games: seq<LeagueGame>, userIds: seq<string>,
                       users: map<string, string>): Result
  {
    if |scores| == 0 then Result([], [], map[])
    else
      var gameIds := GameIds(games);
      var types := GameTypes(games);
      var dates := SortedDates(scores);
      var days := DailyRankings(scores, dates, gameIds, types, userIds);
      Result(SortBy(OverallRows(days, userIds, users), OverallBefore), days,
             TableAfterDates(scores, dates, gameIds, types))
  }

  // ---------------------------------------------------------------------------
  // The handler, loop by loop

  /** `for (const x of s) m[key(x)] = val(x)`, starting from an empty object. */
  method BuildMap<T, K(==), V>(s: seq<T>, key: T -> K, val: T -> V) returns (m: map<K, V>)
    ensures m == MapOf(s, key, val)
  {
    m := map[];
    for k := 0 to |s|
      invariant m == MapOf(s[..k], key, val)
    {
      assert s[..k + 1][..k] == s[..k];
      m := m[key(s[k]) := val(s[k])];
    }
    assert s[..|s|] == s;
  }

  /** A date that is not among the keys has no scores. */
  lemma {:induction false} DatesCovered(scores: seq<ScoreRow>, d: string)
    requires d !in DistinctDates(scores)
    ensures Filter(scores, DateIs(d)) == []
  {
    FilterSpec(scores, DateIs(d));
    if |Filter(scores, DateIs(d))| > 0 {
      var x := Filter(scores, DateIs(d))[0];
      var k :| 0 <= k < |scores| && scores[k] == x;
      DateListed(scores, k);
      assert false;
    }
  }

  lemma {:induction false} DateListed(scores: seq<ScoreRow>, k: nat)
    requires k < |scores|
    ensures scores[k].date in DistinctDates(scores)
  {
    if k < |scores| - 1 {
      assert scores[..|scores| - 1][k] == scores[k];
      DateListed(scores[..|scores| - 1], k);
    }
  }

  method GroupByDate(scores: seq<ScoreRow>) returns (keys: seq<string>, scoresByDate: map<string, seq<ScoreRow>>)
    ensures keys == DistinctDates(scores)
    ensures forall d :: d in scoresByDate <==> d in keys
    ensures forall d :: d in scoresByDate ==> scoresByDate[d] == Filter(scores, DateIs(d))
  {
    keys := [];
    scoresByDate := map[];
    for k := 0 to |scores|
      invariant keys == DistinctDates(scores[..k])
      invariant forall d :: d in scoresByDate <==> d in keys
      invariant forall d :: d in scoresByDate ==> scoresByDate[d] == Filter(scores[..k], DateIs(d))
    {
      var score := scores[k];
      assert scores[..k + 1][..k] == scores[..k] && scores[..k + 1] == scores[..k] + [score];
      if score.date !in scoresByDate {
        DatesCovered(scores[..k], score.date);
        scoresByDate := scoresByDate[score.date := []];
        keys := keys + [score.date];
      }
      scoresByDate := scoresByDate[score.date := scoresByDate[score.date] + [score]];
      forall d | d in scoresByDate ensures scoresByDate[d] == Filter(scores[..k + 1], DateIs(d)) {
        FilterSnoc(scores[..k], score, DateIs(d));
      }
    }
    assert scores[..|scores|] == scores;
  }

  /** Adds the points of one ranking to the members' totals. */
  method AddPoints<T>(totals: map<string, nat>, ranked: seq<Ranked<T>>, who: T -> string, ghost userIds: seq<string>)
    returns (after: map<string, nat>)
    requires forall u :: u in totals <==> u in userIds
    ensures forall u :: u in after <==> u in userIds
    ensures forall u :: u in userIds ==> after[u] == totals[u] + PointsFor(ranked, who, u)
  {
    after := totals;
    for k := 0 to |ranked|
      invariant forall u :: u in after <==> u in userIds
      invariant forall u :: u in userIds ==> after[u] == totals[u] + PointsFor(ranked[..k], who, u)
    {
      assert ranked[..k + 1][..k] == ranked[..k];
      var uid := who(ranked[k].item);
      // a user outside the league gets NaN in the source, a value nobody reads
      if uid in after {
        after := after[uid := after[uid] + ranked[k].points];
      }
    }
    assert ranked[..|ranked|] == ranked;
  }

  /** `for (const userId of userIds) m[userId] = 0`. */
  method ZeroFor(userIds: seq<string>) returns (m: map<string, nat>)
    ensures forall u :: u in m <==> u in userIds
    ensures forall u :: u in m ==> m[u] == 0
  {
    m := map[];
    for k := 0 to |userIds|
      invariant forall u :: u in m <==> u in userIds[..k]
      invariant forall u :: u in m ==> m[u] == 0
    {
      assert userIds[..k + 1] == userIds[..k] + [userIds[k]];
      m := m[userIds[k] := 0];
    }
    assert userIds[..|userIds|] == userIds;
  }

  /** The body of the loop over league games: rank one game on one date. */
  method RankGame(d: string, dateScores: seq<ScoreRow>, gameId: string, isLowerBetter: bool,
                  totals: map<string, nat>, table: Table, ghost userIds: seq<string>)
    returns (totalsAfter: map<string, nat>, tableAfter: Table)
    requires forall u :: u in totals <==> u in userIds
    ensures forall u :: u in totalsAfter <==> u in userIds
    ensures forall u :: u in userIds ==>
      totalsAfter[u] == totals[u] + PointsFor(GameRanking(dateScores, gameId, isLowerBetter), RowUser, u)
    ensures tableAfter == TableStep(table, d, dateScores, gameId, isLowerBetter)
  {
    var gameScores := Filter(dateScores, GameIs(gameId));
    if |gameScores| == 0 {
      assert GameRanking(dateScores, gameId, isLowerBetter) == [];
      return totals, table;
    }
    var sorted := SortBy(gameScores, ScoreBefore(isLowerBetter));
    var ranked := AssignPoints(sorted, ScoreOf);
    var forGame := if gameId in table then table[gameId] else map[];
    var points := BuildMap(ranked, RankedUser, RankedPoints);
    tableAfter := table[gameId := forGame[d := points]];
    totalsAfter := AddPoints(totals, ranked, RowUser, userIds);
  }

  /** One date of the outer loop: rank every league game and add to the daily totals. */
  method RankDate(d: string, dateScores: seq<ScoreRow>, gameIds: seq<string>,
                  gameMap: map<string, Option<string>>, userIds: seq<string>, table: Table)
    returns (totals: map<string, nat>, after: Table)
    ensures forall u :: u in totals <==> u in userIds
    ensures forall u :: u in userIds ==> totals[u] == DailyTotal(dateScores, gameIds, gameMap, u)
    ensures after == TableAfterGames(table, d, dateScores, gameIds, gameMap)
  {
    totals := ZeroFor(userIds);
    after := table;
    for gi := 0 to |gameIds|
      invariant forall u :: u in totals <==> u in userIds
      invariant forall u :: u in userIds ==> totals[u] == DailyTotal(dateScores, gameIds[..gi], gameMap, u)
      invariant after == TableAfterGames(table, d, dateScores, gameIds[..gi], gameMap)
    {
      var gameId := gameIds[gi];
      assert gameIds[..gi + 1][..gi] == gameIds[..gi];
      totals, after := RankGame(d, dateScores, gameId, IsLowerBetter(gameMap, gameId), totals, after, userIds);
    }
    assert gameIds[..|gameIds|] == gameIds;
  }

  /** dailyTotals holds the totals of the first n dates. */
  ghost predicate TotalsUpTo(dailyTotals: map<string, map<string, nat>>, dates: seq<string>, n: nat,
                             scores: seq<ScoreRow>, gameIds: seq<string>,
                             types: map<string, Option<string>>, userIds: seq<string>)
    requires n <= |dates|
  {
    && (forall i :: 0 <= i < n ==> dates[i] in dailyTotals)
    && (forall i, u :: 0 <= i < n && u in userIds ==>
         u in dailyTotals[dates[i]]
         && dailyTotals[dates[i]][u] == DailyTotal(Filter(scores, DateIs(dates[i])), gameIds, types, u))
  }

  lemma {:induction false} TotalsStep(dailyTotals: map<string, map<string, nat>>, totals: map<string, nat>,
                                      dates: seq<string>, n: nat, scores: seq<ScoreRow>, gameIds: seq<string>,
                                      types: map<string, Option<string>>, userIds: seq<string>)
    requires n < |dates|
    requires TotalsUpTo(dailyTotals, dates, n, scores, gameIds, types, userIds)
    requires forall u :: u in userIds ==>
      u in totals && totals[u] == DailyTotal(Filter(scores, DateIs(dates[n])), gameIds, types, u)
    ensures TotalsUpTo(dailyTotals[dates[n] := totals], dates, n + 1, scores, gameIds, types, userIds)
  {
    var after := dailyTotals[dates[n] := totals];
    forall i, u | 0 <= i < n + 1 && u in userIds
      ensures u in after[dates[i]]
      ensures after[dates[i]][u] == DailyTotal(Filter(scores, DateIs(dates[i])), gameIds, types, u)
    {
      if dates[i] != dates[n] {
        assert after[dates[i]] == dailyTotals[dates[i]];
      }
    }
  }

  /** The second loop: each date's totals, sorted ascending and ranked. */
  method RankDays(dates: seq<string>, dailyTotals: map<string, map<string, nat>>, userIds: seq<string>,
                  ghost scores: seq<ScoreRow>, ghost gameIds: seq<string>, ghost types: map<string, Option<string>>)
    returns (dailyRankings: seq<DayRanking>)
    requires TotalsUpTo(dailyTotals, dates, |dates|, scores, gameIds, types, userIds)
    ensures dailyRankings == DailyRankings(scores, dates, gameIds, types, userIds)
  {
    dailyRankings := [];
    for di := 0 to |dates|
      invariant |dailyRankings| == di
      invariant forall i :: 0 <= i < di ==>
        dailyRankings[i] == DayRanking(dates[i], DayRank(Filter(scores, DateIs(dates[i])), gameIds, types, userIds))
    {
      var date := dates[di];
      var totals := dailyTotals[date];
      var dayData := seq(|userIds|, k requires 0 <= k < |userIds| =>
        DayEntry(userIds[k], if userIds[k] in totals then totals[userIds[k]] else 0));
      forall k | 0 <= k < |userIds|
        ensures dayData[k] == DayData(Filter(scores, DateIs(date)), gameIds, types, userIds)[k]
      {
        assert userIds[k] in userIds;
      }
      assert dayData == DayData(Filter(scores, DateIs(date)), gameIds, types, userIds);
      var dayRanked := AssignPoints(SortBy(dayData, DayBefore), TotalOf);
      dailyRankings := dailyRankings + [DayRanking(date, dayRanked)];
    }
  }

  /** The third loop: each league player's sum of daily points. */
  method SumDays(dailyRankings: seq<DayRanking>, userIds: seq<string>) returns (overallPoints: map<string, nat>)
    ensures forall u :: u in overallPoints <==> u in userIds
    ensures forall u :: u in userIds ==> overallPoints[u] == OverallTotal(dailyRankings, u)
  {
    overallPoints := ZeroFor(userIds);
    for di := 0 to |dailyRankings|
      invariant forall u :: u in overallPoints <==> u in userIds
      invariant forall u :: u in userIds ==> overallPoints[u] == OverallTotal(dailyRankings[..di], u)
    {
      assert dailyRankings[..di + 1][..di] == dailyRankings[..di];
      overallPoints := AddPoints(overallPoints, dailyRankings[di].rankings, EntryUser, userIds);
    }
    assert dailyRankings[..|dailyRankings|] == dailyRankings;
  }

  /** The first loop: for each date, rank every league game and total the points. */
  method RankDates(dates: seq<string>, scoresByDate: map<string, seq<ScoreRow>>, gameIds: seq<string>,
                   gameMap: map<string, Option<string>>, userIds: seq<string>, ghost scores: seq<ScoreRow>)
    returns (dailyTotals: map<string, map<string, nat>>, gameStandings: Table)
    requires forall d :: d in dates ==> d in scoresByDate && scoresByDate[d] == Filter(scores, DateIs(d))
    ensures TotalsUpTo(dailyTotals, dates, |dates|, scores, gameIds, gameMap, userIds)
    ensures gameStandings == TableAfterDates(scores, dates, gameIds, gameMap)
  {
    dailyTotals := map[];
    gameStandings := map[];
    for di := 0 to |dates|
      invariant TotalsUpTo(dailyTotals, dates, di, scores, gameIds, gameMap, userIds)
      invariant gameStandings == TableAfterDates(scores, dates[..di], gameIds, gameMap)
    {
      var date := dates[di];
      assert dates[..di + 1][..di] == dates[..di];
      var dateScores := scoresByDate[date];
      var totals;
      totals, gameStandings := RankDate(date, dateScores, gameIds, gameMap, userIds, gameStandings);
      TotalsStep(dailyTotals, totals, dates, di, scores, gameIds, gameMap, userIds);
      dailyTotals := dailyTotals[date := totals];
    }
    assert dates[..|dates|] == dates;
  }

  method ComputeStandings(scores: seq<ScoreRow>, games: seq<LeagueGame>, userIds: seq<string>,
                          users: map<string, string>) returns (r: Result)
    ensures r == StandingsOf(scores, games, userIds, users)
    ensures |scores| == 0 ==> r == Result([], [], map[])
  {
    var gameIds := GameIds(games);
    var gameMap := BuildMap(games, GameKey, GameType);
    if |scores| == 0 {
      return Result([], [], map[]);
    }
    var keys, scoresByDate := GroupByDate(scores);
    var dates := SortBy(keys, StrLt);
    SortByMembers(keys, StrLt);
    var dailyTotals, gameStandings := RankDates(dates, scoresByDate, gameIds, gameMap, userIds, scores);
    // the keys of dailyTotals are the dates again, already sorted
    var dailyRankings := RankDays(dates, dailyTotals, userIds, scores, gameIds, gameMap);
    var overallPoints := SumDays(dailyRankings, userIds);
    var rows := seq(|userIds|, k requires 0 <= k < |userIds| =>
      OverallEntry(userIds[k], Username(users, userIds[k]), overallPoints[userIds[k]]));
    assert rows == OverallRows(dailyRankings, userIds, users);
    var overallStandings := SortBy(rows, OverallBefore);
    r := Result(overallStandings, dailyRankings, gameStandings);
  }
}
