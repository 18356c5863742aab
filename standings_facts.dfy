/** What the standings computed by the handler mean. */
module StandingsFacts {
  import opened Wrappers
  import opened Seqs
  import opened Text
  import opened Sorting
  import opened Standings

  // ---------------------------------------------------------------------------
  // assignPoints

  /** The start of an item's group is where its run of equal scores begins. */
  lemma {:induction false} GroupStartIsRunStart<T, K>(items: seq<T>, score: T -> K, k: nat)
    requires k < |items|
    ensures var g := GroupStart(items, score, k);
      && (g == 0 || score(items[g - 1]) != score(items[g]))
      && forall m :: g <= m <= k ==> score(items[m]) == score(items[k])
  {
    if k > 0 && score(items[k]) == score(items[k - 1]) {
      GroupStartIsRunStart(items, score, k - 1);
    }
  }

  /** Items in one run of equal scores share the start of their group. */
  lemma {:induction false} SameRunSameStart<T, K>(items: seq<T>, score: T -> K, i: nat, j: nat)
    requires i <= j < |items|
    requires forall m :: i <= m <= j ==> score(items[m]) == score(items[i])
    ensures GroupStart(items, score, j) == GroupStart(items, score, i)
  {
    if j > i {
      SameRunSameStart(items, score, i, j - 1);
    }
  }

  /**
   * Competition ranking: same length and order as the input, the first item
   * gets 1, a tie with the previous item repeats its points, a new score
   * gets one more than the number of items before it, so points never
   * decrease and item k gets at most k + 1.
   */
  lemma {:induction false} RankingIsCompetition<T, K>(items: seq<T>, score: T -> K)
    ensures |Ranking(items, score)| == |items|
    ensures |items| == 0 ==> Ranking(items, score) == []
    ensures forall k :: 0 <= k < |items| ==> Ranking(items, score)[k].item == items[k]
    ensures |items| > 0 ==> Ranking(items, score)[0].points == 1
    ensures forall k :: 0 < k < |items| && score(items[k]) == score(items[k - 1]) ==>
      Ranking(items, score)[k].points == Ranking(items, score)[k - 1].points
    ensures forall k :: 0 < k < |items| && score(items[k]) != score(items[k - 1]) ==>
      Ranking(items, score)[k].points == k + 1
    ensures forall k :: 0 < k < |items| ==> Ranking(items, score)[k - 1].points <= Ranking(items, score)[k].points
    ensures forall k :: 0 <= k < |items| ==> 1 <= Ranking(items, score)[k].points <= k + 1
  {
    var r := Ranking(items, score);
    forall k | 0 < k < |items| ensures r[k - 1].points <= r[k].points {
      if score(items[k]) != score(items[k - 1]) {
        assert GroupStart(items, score, k) == k;
      }
    }
  }

  /** With all scores distinct, item k gets k + 1 points. */
  lemma {:induction false} DistinctScoresRankByPosition<T, K>(items: seq<T>, score: T -> K)
    requires forall i, j :: 0 <= i < j < |items| ==> score(items[i]) != score(items[j])
    ensures forall k :: 0 <= k < |items| ==> Ranking(items, score)[k].points == k + 1
  {
    forall k | 0 <= k < |items| ensures GroupStart(items, score, k) == k {
      if k > 0 {
        assert score(items[k - 1]) != score(items[k]);
      }
    }
  }

  // ---------------------------------------------------------------------------
  // Ranking one game on one date

  lemma {:induction false} ScoreBeforeAsymmetric(lowerBetter: bool)
    ensures Asymmetric(ScoreBefore(lowerBetter))
  {
    forall a: ScoreRow, b: ScoreRow ensures ScoreBefore(lowerBetter)(a, b) ==> !ScoreBefore(lowerBetter)(b, a) {
    }
  }

  /** Best first: ascending when lower is better, descending otherwise. */
  ghost predicate BestFirst(s: seq<ScoreRow>, lowerBetter: bool)
  {
    forall k :: 0 < k < |s| ==>
      if lowerBetter then s[k - 1].score <= s[k].score else s[k].score <= s[k - 1].score
  }

  /** A game's scores on a date are exactly that game's rows, sorted best first. */
  lemma {:induction false} GameOrder(dateScores: seq<ScoreRow>, g: string, lowerBetter: bool)
    ensures BestFirst(SortBy(Filter(dateScores, GameIs(g)), ScoreBefore(lowerBetter)), lowerBetter)
    ensures forall x :: x in SortBy(Filter(dateScores, GameIs(g)), ScoreBefore(lowerBetter)) <==>
      x in dateScores && x.gameId == g
  {
    var f := Filter(dateScores, GameIs(g));
    ScoreBeforeAsymmetric(lowerBetter);
    SortBySorted(f, ScoreBefore(lowerBetter));
    SortByMembers(f, ScoreBefore(lowerBetter));
    FilterSpec(dateScores, GameIs(g));
  }

  lemma {:induction false} BestFirstRange(s: seq<ScoreRow>, lowerBetter: bool, i: nat, j: nat)
    requires BestFirst(s, lowerBetter)
    requires i <= j < |s|
    ensures if lowerBetter then s[i].score <= s[j].score else s[j].score <= s[i].score
  {
    if j > i {
      BestFirstRange(s, lowerBetter, i, j - 1);
    }
  }

  /** Two players with the same score in a game on a date get the same points. */
  lemma {:induction false} GameTiesShare(dateScores: seq<ScoreRow>, g: string, lowerBetter: bool, i: nat, j: nat)
    requires i <= j < |GameRanking(dateScores, g, lowerBetter)|
    requires GameRanking(dateScores, g, lowerBetter)[i].item.score == GameRanking(dateScores, g, lowerBetter)[j].item.score
    ensures GameRanking(dateScores, g, lowerBetter)[i].points == GameRanking(dateScores, g, lowerBetter)[j].points
  {
    var sorted := SortBy(Filter(dateScores, GameIs(g)), ScoreBefore(lowerBetter));
    GameOrder(dateScores, g, lowerBetter);
    forall m | i <= m <= j ensures ScoreOf(sorted[m]) == ScoreOf(sorted[i]) {
      BestFirstRange(sorted, lowerBetter, i, m);
      BestFirstRange(sorted, lowerBetter, m, j);
    }
    SameRunSameStart(sorted, ScoreOf, i, j);
  }

  lemma {:induction false} PointsForAbsent<T>(ranked: seq<Ranked<T>>, who: T -> string, u: string)
    requires forall k :: 0 <= k < |ranked| ==> who(ranked[k].item) != u
    ensures PointsFor(ranked, who, u) == 0
  {
    if |ranked| > 0 {
      var p := ranked[..|ranked| - 1];
      assert forall k :: 0 <= k < |p| ==> p[k] == ranked[k];
      PointsForAbsent(p, who, u);
    }
  }

  /** A player without a score in a game on a date gets no points from it. */
  lemma {:induction false} NoScoreNoGamePoints(dateScores: seq<ScoreRow>, g: string, lowerBetter: bool, u: string)
    requires forall k :: 0 <= k < |dateScores| && dateScores[k].userId == u ==> dateScores[k].gameId != g
    ensures PointsFor(GameRanking(dateScores, g, lowerBetter), RowUser, u) == 0
  {
    var sorted := SortBy(Filter(dateScores, GameIs(g)), ScoreBefore(lowerBetter));
    var r := GameRanking(dateScores, g, lowerBetter);
    GameOrder(dateScores, g, lowerBetter);
    forall k | 0 <= k < |r| ensures RowUser(r[k].item) != u {
      assert r[k].item == sorted[k];
      assert sorted[k] in dateScores;
    }
    PointsForAbsent(r, RowUser, u);
  }

  /**
   * A daily total grows only by points from league games the player scored
   * in that date: a player without any score that date has daily total 0.
   */
  lemma {:induction false} NoScoreNoDailyPoints(dateScores: seq<ScoreRow>, gameIds: seq<string>,
                                                types: map<string, Option<string>>, u: string)
    requires forall k :: 0 <= k < |dateScores| ==> dateScores[k].userId != u
    ensures DailyTotal(dateScores, gameIds, types, u) == 0
  {
    if |gameIds| > 0 {
      var g := gameIds[|gameIds| - 1];
      NoScoreNoDailyPoints(dateScores, gameIds[..|gameIds| - 1], types, u);
      NoScoreNoGamePoints(dateScores, g, IsLowerBetter(types, g), u);
    }
  }

  /** A game skipped on a date adds nothing to the daily total. */
  lemma {:induction false} UnplayedGameAddsNothing(dateScores: seq<ScoreRow>, gameIds: seq<string>,
                                                   types: map<string, Option<string>>, g: string, u: string)
    requires |Filter(dateScores, GameIs(g))| == 0
    ensures DailyTotal(dateScores, gameIds + [g], types, u) == DailyTotal(dateScores, gameIds, types, u)
  {
    assert (gameIds + [g])[..|gameIds|] == gameIds;
    assert GameRanking(dateScores, g, IsLowerBetter(types, g)) == [];
  }

  // ---------------------------------------------------------------------------
  // gameMap

  /** gameMap holds every league game, with the type of its last row. */
  lemma {:induction false} GameTypesLastWins(games: seq<LeagueGame>)
    ensures forall g :: g in GameTypes(games) <==> g in GameIds(games)
    ensures forall k :: 0 <= k < |games| && (forall m :: k < m < |games| ==> games[m].gameId != games[k].gameId) ==>
      games[k].gameId in GameTypes(games) && GameTypes(games)[games[k].gameId] == games[k].scoreType
  {
    MapOfSpec(games, GameKey, GameType);
    var ids := GameIds(games);
    forall g ensures g in GameTypes(games) <==> g in ids {
      if g in ids {
        var k :| 0 <= k < |ids| && ids[k] == g;
        assert GameKey(games[k]) == g;
      }
    }
  }

  // ---------------------------------------------------------------------------
  // Dates

  lemma {:induction false} DistinctDatesDistinct(scores: seq<ScoreRow>)
    ensures Distinct(DistinctDates(scores))
  {
    if |scores| > 0 {
      DistinctDatesDistinct(scores[..|scores| - 1]);
    }
  }

  lemma {:induction false} DistinctDatesCome(scores: seq<ScoreRow>, d: string)
    requires d in DistinctDates(scores)
    ensures exists k :: 0 <= k < |scores| && scores[k].date == d
  {
    var p := scores[..|scores| - 1];
    if d in DistinctDates(p) {
      DistinctDatesCome(p, d);
      var k :| 0 <= k < |p| && p[k].date == d;
      assert scores[k] == p[k];
    } else {
      assert scores[|scores| - 1].date == d;
    }
  }

  lemma {:induction false} StrLtAsymmetric()
    ensures Asymmetric(StrLt)
  {
    forall a: string, b: string ensures StrLt(a, b) ==> !StrLt(b, a) {
      StrLtAsym(a, b);
    }
  }

  /** The dates of the daily standings: each date with a score, once, in string order. */
  lemma {:induction false} SortedDatesSpec(scores: seq<ScoreRow>)
    ensures Distinct(SortedDates(scores))
    ensures Sorted(SortedDates(scores), StrLt)
    ensures forall d :: d in SortedDates(scores) <==> exists k :: 0 <= k < |scores| && scores[k].date == d
  {
    DistinctDatesDistinct(scores);
    SortByDistinct(DistinctDates(scores), StrLt);
    StrLtAsymmetric();
    SortBySorted(DistinctDates(scores), StrLt);
    SortByMembers(DistinctDates(scores), StrLt);
    forall d ensures d in SortedDates(scores) <==> exists k :: 0 <= k < |scores| && scores[k].date == d {
      if d in DistinctDates(scores) {
        DistinctDatesCome(scores, d);
      }
      if exists k :: 0 <= k < |scores| && scores[k].date == d {
        var k :| 0 <= k < |scores| && scores[k].date == d;
        DateListed(scores, k);
      }
    }
  }

  // ---------------------------------------------------------------------------
  // Daily rankings

  function Items<T>(r: seq<Ranked<T>>): (items: seq<T>)
    ensures |items| == |r|
    ensures forall k :: 0 <= k < |r| ==> items[k] == r[k].item
  {
    seq(|r|, k requires 0 <= k < |r| => r[k].item)
  }

  lemma {:induction false} DayBeforeAsymmetric()
    ensures Asymmetric(DayBefore)
  {
  }

  /**
   * A daily ranking holds exactly the league players with their daily
   * totals, once each, ordered by ascending total.
   */
  lemma {:induction false} DayRankIsMembers(dateScores: seq<ScoreRow>, gameIds: seq<string>,
                                            types: map<string, Option<string>>, userIds: seq<string>)
    ensures multiset(Items(DayRank(dateScores, gameIds, types, userIds))) == multiset(DayData(dateScores, gameIds, types, userIds))
    ensures forall k :: 0 < k < |DayRank(dateScores, gameIds, types, userIds)| ==>
      DayRank(dateScores, gameIds, types, userIds)[k - 1].item.totalPoints
        <= DayRank(dateScores, gameIds, types, userIds)[k].item.totalPoints
  {
    var data := DayData(dateScores, gameIds, types, userIds);
    var sorted := SortBy(data, DayBefore);
    var r := DayRank(dateScores, gameIds, types, userIds);
    assert Items(r) == sorted;
    SortByPermutation(data, DayBefore);
    DayBeforeAsymmetric();
    SortBySorted(data, DayBefore);
  }

  // ---------------------------------------------------------------------------
  // The response

  lemma {:induction false} OverallBeforeAsymmetric()
    ensures Asymmetric(OverallBefore)
  {
  }

  /**
   * With at least one score: one daily ranking per date with a score, in
   * date order; the overall list holds each league player once with the sum
   * of their daily points, ordered by ascending total.
   */
  lemma {:induction false} StandingsShape(scores: seq<ScoreRow>, games: seq<LeagueGame>, userIds: seq<string>,
                                          users: map<string, string>)
    requires |scores| > 0
    ensures var r := StandingsOf(scores, games, userIds, users);
      && |r.daily| == |SortedDates(scores)|
      && (forall i :: 0 <= i < |r.daily| ==> r.daily[i].date == SortedDates(scores)[i])
      && multiset(r.overall) == multiset(OverallRows(r.daily, userIds, users))
      && (forall k :: 0 < k < |r.overall| ==> r.overall[k - 1].totalPoints <= r.overall[k].totalPoints)
      && (forall k :: 0 <= k < |userIds| ==>
            OverallRows(r.daily, userIds, users)[k]
              == OverallEntry(userIds[k], Username(users, userIds[k]), OverallTotal(r.daily, userIds[k])))
  {
    var r := StandingsOf(scores, games, userIds, users);
    var rows := OverallRows(r.daily, userIds, users);
    SortByPermutation(rows, OverallBefore);
    OverallBeforeAsymmetric();
    SortBySorted(rows, OverallBefore);
  }

  // ---------------------------------------------------------------------------
  // gameStandings

  /** Some score of game g on date d. */
  ghost predicate Played(scores: seq<ScoreRow>, d: string, g: string)
  {
    |Filter(Filter(scores, DateIs(d)), GameIs(g))| > 0
  }

  // TAG abbreviates TableAfterGames(t, d, dateScores, gameIds, types) in the comments below.

  /** The games of TAG: those of t and the league games played on date d. */
  lemma {:induction false} AfterGamesKeys(t: Table, d: string, dateScores: seq<ScoreRow>, gameIds: seq<string>,
                                          types: map<string, Option<string>>, g: string)
    ensures g in TableAfterGames(t, d, dateScores, gameIds, types) <==>
      g in t || (g in gameIds && |Filter(dateScores, GameIs(g))| > 0)
  {
    if |gameIds| > 0 {
      var p := gameIds[..|gameIds| - 1];
      AfterGamesKeys(t, d, dateScores, p, types, g);
      assert gameIds == p + [gameIds[|gameIds| - 1]];
    }
  }

  /** TAG keeps every entry of t for another date. */
  lemma {:induction false} AfterGamesKeeps(t: Table, d: string, dateScores: seq<ScoreRow>, gameIds: seq<string>,
                                           types: map<string, Option<string>>, g: string, e: string)
    requires g in t && e in t[g] && e != d
    ensures g in TableAfterGames(t, d, dateScores, gameIds, types)
    ensures e in TableAfterGames(t, d, dateScores, gameIds, types)[g]
    ensures TableAfterGames(t, d, dateScores, gameIds, types)[g][e] == t[g][e]
  {
    if |gameIds| > 0 {
      AfterGamesKeeps(t, d, dateScores, gameIds[..|gameIds| - 1], types, g, e);
    }
  }

  /** An entry of TAG comes from t or is date d of a league game played that date. */
  lemma {:induction false} AfterGamesOnly(t: Table, d: string, dateScores: seq<ScoreRow>, gameIds: seq<string>,
                                          types: map<string, Option<string>>, g: string, e: string)
    requires g in TableAfterGames(t, d, dateScores, gameIds, types)
    requires e in TableAfterGames(t, d, dateScores, gameIds, types)[g]
    ensures (g in t && e in t[g]) || (e == d && g in gameIds && |Filter(dateScores, GameIs(g))| > 0)
  {
    if |gameIds| > 0 {
      var p := gameIds[..|gameIds| - 1];
      var last := gameIds[|gameIds| - 1];
      assert gameIds == p + [last];
      var prev := TableAfterGames(t, d, dateScores, p, types);
      if g in prev && e in prev[g] {
        AfterGamesOnly(t, d, dateScores, p, types, g, e);
      }
    }
  }

  /** TAG holds the points map of every league game played on date d. */
  lemma {:induction false} AfterGamesSets(t: Table, d: string, dateScores: seq<ScoreRow>, gameIds: seq<string>,
                                          types: map<string, Option<string>>, g: string)
    requires g in gameIds && |Filter(dateScores, GameIs(g))| > 0
    ensures g in TableAfterGames(t, d, dateScores, gameIds, types)
    ensures d in TableAfterGames(t, d, dateScores, gameIds, types)[g]
    ensures TableAfterGames(t, d, dateScores, gameIds, types)[g][d]
      == PointsMap(GameRanking(dateScores, g, IsLowerBetter(types, g)))
  {
    var p := gameIds[..|gameIds| - 1];
    var last := gameIds[|gameIds| - 1];
    assert gameIds == p + [last];
    var prev := TableAfterGames(t, d, dateScores, p, types);
    if last == g {
      TableStepSets(prev, d, dateScores, g, IsLowerBetter(types, g));
    } else {
      AfterGamesSets(t, d, dateScores, p, types, g);
      TableStepKeeps(prev, d, dateScores, last, IsLowerBetter(types, last), g);
    }
  }

  /** A step for a game that was played sets that game's entry for date d. */
  lemma {:induction false} TableStepSets(t: Table, d: string, dateScores: seq<ScoreRow>, g: string, lowerBetter: bool)
    requires |Filter(dateScores, GameIs(g))| > 0
    ensures g in TableStep(t, d, dateScores, g, lowerBetter)
    ensures d in TableStep(t, d, dateScores, g, lowerBetter)[g]
    ensures TableStep(t, d, dateScores, g, lowerBetter)[g][d] == PointsMap(GameRanking(dateScores, g, lowerBetter))
  {
    var forGame := if g in t then t[g] else map[];
    var pm := PointsMap(GameRanking(dateScores, g, lowerBetter));
    assert TableStep(t, d, dateScores, g, lowerBetter) == t[g := forGame[d := pm]];
  }

  /** A step for game h leaves the entries of every other game alone. */
  lemma {:induction false} TableStepKeeps(t: Table, d: string, dateScores: seq<ScoreRow>, h: string, lowerBetter: bool,
                                          g: string)
    requires g in t && h != g
    ensures g in TableStep(t, d, dateScores, h, lowerBetter)
    ensures TableStep(t, d, dateScores, h, lowerBetter)[g] == t[g]
  {
  }

  // TAD abbreviates TableAfterDates(scores, dates, gameIds, types).

  /** An entry of TAD is a date of dates on which a league game was played. */
  lemma {:induction false} AfterDatesOnly(scores: seq<ScoreRow>, dates: seq<string>, gameIds: seq<string>,
                                          types: map<string, Option<string>>, g: string, e: string)
    requires g in TableAfterDates(scores, dates, gameIds, types)
    requires e in TableAfterDates(scores, dates, gameIds, types)[g]
    ensures e in dates && g in gameIds && Played(scores, e, g)
  {
    var p := dates[..|dates| - 1];
    var d := dates[|dates| - 1];
    assert dates == p + [d];
    var t := TableAfterDates(scores, p, gameIds, types);
    AfterGamesOnly(t, d, Filter(scores, DateIs(d)), gameIds, types, g, e);
    if g in t && e in t[g] {
      AfterDatesOnly(scores, p, gameIds, types, g, e);
    }
  }

  /** Every game of TAD has at least one date. */
  lemma {:induction false} AfterDatesNonEmpty(scores: seq<ScoreRow>, dates: seq<string>, gameIds: seq<string>,
                                              types: map<string, Option<string>>, g: string)
    requires g in TableAfterDates(scores, dates, gameIds, types)
    ensures exists e :: e in TableAfterDates(scores, dates, gameIds, types)[g]
  {
    var p := dates[..|dates| - 1];
    var d := dates[|dates| - 1];
    var t := TableAfterDates(scores, p, gameIds, types);
    var ds := Filter(scores, DateIs(d));
    AfterGamesKeys(t, d, ds, gameIds, types, g);
    if g in gameIds && |Filter(ds, GameIs(g))| > 0 {
      AfterGamesSets(t, d, ds, gameIds, types, g);
    } else {
      AfterDatesNonEmpty(scores, p, gameIds, types, g);
      var e :| e in t[g];
      AfterDatesOnly(scores, p, gameIds, types, g, e);
      assert e != d;
      AfterGamesKeeps(t, d, ds, gameIds, types, g, e);
    }
  }

  /** For distinct dates, TAD holds the points map of each game played on each date. */
  lemma {:induction false} AfterDatesSets(scores: seq<ScoreRow>, dates: seq<string>, gameIds: seq<string>,
                                          types: map<string, Option<string>>, g: string, e: string)
    requires Distinct(dates)
    requires e in dates && g in gameIds && Played(scores, e, g)
    ensures g in TableAfterDates(scores, dates, gameIds, types)
    ensures e in TableAfterDates(scores, dates, gameIds, types)[g]
    ensures TableAfterDates(scores, dates, gameIds, types)[g][e]
      == PointsMap(GameRanking(Filter(scores, DateIs(e)), g, IsLowerBetter(types, g)))
  {
    var p := dates[..|dates| - 1];
    var d := dates[|dates| - 1];
    assert dates == p + [d];
    var t := TableAfterDates(scores, p, gameIds, types);
    if e == d {
      AfterGamesSets(t, d, Filter(scores, DateIs(d)), gameIds, types, g);
    } else {
      assert Distinct(p);
      assert e in p;
      AfterDatesSets(scores, p, gameIds, types, g, e);
      AfterGamesKeeps(t, d, Filter(scores, DateIs(d)), gameIds, types, g, e);
    }
  }

  lemma {:induction false} PlayedHasDate(scores: seq<ScoreRow>, d: string, g: string)
    requires Played(scores, d, g)
    ensures exists k :: 0 <= k < |scores| && scores[k].date == d
  {
    var f := Filter(scores, DateIs(d));
    FilterSpec(f, GameIs(g));
    FilterSpec(scores, DateIs(d));
    assert f[0] in scores;
  }

  /**
   * gameStandings has an entry for game g and date d exactly when g is a
   * league game with a score that date, and the entry maps each player to
   * their points in that game; no game has an empty entry.
   */
  lemma {:induction false} GameStandingsSpec(scores: seq<ScoreRow>, games: seq<LeagueGame>, userIds: seq<string>,
                                             users: map<string, string>, g: string, d: string)
    ensures var t := StandingsOf(scores, games, userIds, users).games;
      g in t && d in t[g] <==> g in GameIds(games) && Played(scores, d, g)
    ensures var t := StandingsOf(scores, games, userIds, users).games;
      g in t ==> exists e :: e in t[g]
    ensures var t := StandingsOf(scores, games, userIds, users).games;
      g in GameIds(games) && Played(scores, d, g) ==>
        g in t && d in t[g] && t[g][d] == PointsMap(GameRanking(Filter(scores, DateIs(d)), g, IsLowerBetter(GameTypes(games), g)))
  {
    if |scores| == 0 {
      assert Filter(scores, DateIs(d)) == [];
    } else {
      var dates := SortedDates(scores);
      var t := TableAfterDates(scores, dates, GameIds(games), GameTypes(games));
      SortedDatesSpec(scores);
      if g in t && d in t[g] {
        AfterDatesOnly(scores, dates, GameIds(games), GameTypes(games), g, d);
      }
      if g in t {
        AfterDatesNonEmpty(scores, dates, GameIds(games), GameTypes(games), g);
      }
      if g in GameIds(games) && Played(scores, d, g) {
        PlayedHasDate(scores, d, g);
        AfterDatesSets(scores, dates, GameIds(games), GameTypes(games), g, d);
      }
    }
  }
}
