/** What the scores of a league spreadsheet satisfy: each comes from its
    own date column of a "raw" row of a league player, under that row's
    game slug; and what process_file gives on a whole file: scores of
    league players on the header's dates, kept starting words under those
    dates, and one of four errors. */
module BackfillFacts {
  import opened Wrappers
  import opened Text
  import opened BackfillCells
  import opened BackfillSheet
  import opened Seqs
  import opened BackfillFile

  /** The date columns whose cell holds a value, left to right. */
  function ScoredColumns<T>(cells: seq<Option<T>>): (c: seq<nat>)
    ensures forall i | 0 <= i < |c| :: c[i] < |cells| && cells[c[i]].Some?
    ensures forall i, j | 0 <= i < j < |c| :: c[i] < c[j]
    ensures forall k | 0 <= k < |cells| && cells[k].Some? :: k in c
  {
    if |cells| == 0 then []
    else
      var n := |cells| - 1;
      var c := ScoredColumns(cells[..n]);
      if cells[n].Some? then c + [n] else c
  }

  /** The scores of a row are those of its scored columns, one per column
      and in column order, each with that column's date, the row's player
      and slug, and the stored value of the column's number. */
  lemma {:induction false} RowSpecColumns(cells: seq<Option<Num>>, dates: seq<string>,
                                          handicaps: seq<Option<real>>, info: RowInfo)
    requires |cells| <= |dates|
    ensures var r := RowSpec(cells, dates, handicaps, info);
            var c := ScoredColumns(cells);
            |r| == |c| &&
            forall i | 0 <= i < |r| ::
              r[i] == Score(dates[c[i]], info.slug, info.player,
                            StoredValue(cells[c[i]].value, info.isCrossword, info.player, dates[c[i]],
                                        if c[i] < |handicaps| then handicaps[c[i]] else None, info.slug))
  {
    if |cells| > 0 {
      var n := |cells| - 1;
      RowSpecColumns(cells[..n], dates, handicaps, info);
    }
  }

  /** Under distinct dates a row yields at most one score per date. */
  lemma {:induction false} RowSpecDatesDistinct(cells: seq<Option<Num>>, dates: seq<string>,
                                                handicaps: seq<Option<real>>, info: RowInfo)
    requires |cells| <= |dates| && Distinct(dates)
    ensures var r := RowSpec(cells, dates, handicaps, info);
            forall i, j | 0 <= i < j < |r| :: r[i].date != r[j].date
  {
    RowSpecColumns(cells, dates, handicaps, info);
  }

  /** A row yields scores only when its cells name a row to keep; they all
      carry its player, its slug and one of the dates. */
  lemma {:induction false} EmitWithScores(info: Result<Option<RowInfo>, string>, cells: seq<Option<Num>>,
                                          dates: seq<string>, handicaps: seq<Option<real>>)
    requires |cells| <= |dates|
    ensures var r := EmitWith(info, cells, dates, handicaps);
            (r.Failure? <==> info.Failure?) && (r.Failure? ==> r.error == info.error)
            && (r.Success? && |r.value| > 0 ==>
                  info.Success? && info.value.Some?
                  && forall s | s in r.value ::
                       s.player == info.value.value.player && s.gameSlug == info.value.value.slug && s.date in dates)
  {
    if info.Success? && info.value.Some? {
      var i := info.value.value;
      var r := RowSpec(cells, dates, handicaps, i);
      RowSpecColumns(cells, dates, handicaps, i);
      forall s | s in r
        ensures s.player == i.player && s.gameSlug == i.slug && s.date in dates
      {
        var k :| 0 <= k < |r| && r[k] == s;
      }
    }
  }

  /** The starting words of a row are those of the columns that hold one,
      one pair per column and in column order, each with that column's
      date; none is blank or the row's own label. */
  lemma {:induction false} WordsColumns(ws: seq<Option<string>>, dates: seq<string>)
    requires |ws| <= |dates|
    ensures var r := Words(ws, dates);
            var c := ScoredColumns(ws);
            |r| == |c| && forall i | 0 <= i < |r| :: r[i] == (dates[c[i]], ws[c[i]].value)
  {
    if |ws| > 0 {
      WordsColumns(ws[..|ws| - 1], dates);
    }
  }

  /** Every word of a words row is a kept word: not blank and not the label "start w/:". */
  lemma {:induction false} ColumnWordsKept(row: Row, first: nat, n: nat, i: nat)
    requires i < n && ColumnWords(row, first, n)[i].Some?
    ensures var w := ColumnWords(row, first, n)[i].value;
            |w| > 0 && LowerStr(w) != "start w/:"
  {
    var ws := ColumnWords(row, first, n);
    assert ws[i] == WordOf(row, first - 1 + i);
  }

  // ---------------------------------------------------------------------
  // A whole file

  /** Every score of the data rows is one that some row yielded. */
  lemma {:induction false} CollectFrom(outs: seq<Result<seq<Score>, string>>, s: Score)
    requires Collect(outs).Success? && s in Collect(outs).value
    ensures exists j | 0 <= j < |outs| :: outs[j].Success? && s in outs[j].value
  {
    var n := |outs| - 1;
    var t := outs[..n];
    if s !in outs[n].value {
      CollectFrom(t, s);
      var j :| 0 <= j < |t| && t[j].Success? && s in t[j].value;
      assert outs[j] == t[j];
    }
  }

  /** The data rows fail only with the error of some row. */
  lemma {:induction false} CollectError(outs: seq<Result<seq<Score>, string>>)
    requires Collect(outs).Failure?
    ensures exists j | 0 <= j < |outs| :: outs[j].Failure? && outs[j].error == Collect(outs).error
  {
    var n := |outs| - 1;
    var t := outs[..n];
    if Collect(t).Failure? {
      CollectError(t);
      var j :| 0 <= j < |t| && t[j].Failure? && t[j].error == Collect(t).error;
      assert outs[j] == t[j];
    }
  }

  /** A data row fails only with IndexError, and each score it yields is
      of a league player on one of the dates. */
  lemma {:induction false} RowEmitFacts(row: Row, layout: Layout, base: nat, dates: seq<string>,
                                        handicaps: seq<Option<real>>, s: Score)
    ensures var r := RowEmit(row, layout, base, dates, handicaps);
            (r.Failure? ==> r.error == IndexError)
            && (r.Success? && s in r.value ==> s.player in Players && s.date in dates)
  {
    var info := RowInfoOf(row, layout);
    RowInfoOfSpec(row, layout);
    EmitWithScores(info, Cells(row, base, RowLimit(|row|, base, |dates|)), dates, handicaps);
  }

  /** The outcome of one row of the run lo..hi-1. */
  lemma {:induction false} OutcomeFacts(rows: seq<Row>, lo: nat, hi: nat, layout: Layout, first: nat,
                                        dates: seq<string>, handicaps: seq<Option<real>>, j: nat, s: Score)
    requires lo <= hi <= |rows| && j < hi - lo
    ensures var o := RowOutcomes(rows, lo, hi, layout, first, dates, handicaps)[j];
            (o.Failure? ==> o.error == IndexError)
            && (o.Success? && s in o.value ==> s.player in Players && s.date in dates)
  {
    var base := first + layout.scoreOffset;
    assert RowOutcomes(rows, lo, hi, layout, first, dates, handicaps)[j]
           == RowEmit(rows[lo + j], layout, base, dates, handicaps);
    RowEmitFacts(rows[lo + j], layout, base, dates, handicaps, s);
  }

  /** The rows lo..hi-1 fail only with IndexError, and each score they
      yield is of a league player on one of the dates. */
  lemma {:induction false} RowsSpecFacts(rows: seq<Row>, lo: nat, hi: nat, layout: Layout, first: nat,
                                         dates: seq<string>, handicaps: seq<Option<real>>, s: Score)
    requires hi <= |rows|
    ensures var r := RowsSpec(rows, lo, hi, layout, first, dates, handicaps);
            (r.Failure? ==> r.error == IndexError)
            && (r.Success? && s in r.value ==> s.player in Players && s.date in dates)
  {
    if hi > lo {
      var outs := RowOutcomes(rows, lo, hi, layout, first, dates, handicaps);
      var r := Collect(outs);
      if r.Failure? {
        CollectError(outs);
        var j :| 0 <= j < |outs| && outs[j].Failure? && outs[j].error == r.error;
        OutcomeFacts(rows, lo, hi, layout, first, dates, handicaps, j, s);
      } else if s in r.value {
        CollectFrom(outs, s);
        var j :| 0 <= j < |outs| && outs[j].Success? && s in outs[j].value;
        OutcomeFacts(rows, lo, hi, layout, first, dates, handicaps, j, s);
      }
    }
  }

  /** The starting words of a file are kept words, each under one of the dates. */
  lemma {:induction false} StartWordsFacts(rows: seq<Row>, h: nat, first: nat, dates: seq<string>,
                                           w: (string, string))
    ensures var r := StartWords(rows, h, first, dates);
            (r.Failure? ==> r.error == IndexError)
            && (r.Success? && w in r.value ==> w.0 in dates && |w.1| > 0 && LowerStr(w.1) != "start w/:")
  {
    var r := StartWords(rows, h, first, dates);
    var found := FirstFrom(rows, MentionsStartWords, h + 1);
    if found.Some? && r.Success? && w in r.value {
      var row := rows[found.value];
      var ws := ColumnWords(row, first, |dates|);
      WordsColumns(ws, dates);
      var c := ScoredColumns(ws);
      var i :| 0 <= i < |r.value| && r.value[i] == w;
      ColumnWordsKept(row, first, |dates|, c[i]);
    }
  }

  /** After the dates, process_file fails only for want of a data-row
      layout or with IndexError; its scores are of league players on the
      dates, its starting words kept words under them. */
  lemma {:induction false} BodyFacts(rows: seq<Row>, h: nat, hr: int, first: nat, dates: seq<string>,
                                     s: Score, w: (string, string))
    ensures var r := BodySpec(rows, h, hr, first, dates);
            (r.Failure? ==> r.error == NoLayout || r.error == IndexError)
            && (r.Success? && s in r.value.scores ==> s.player in Players && s.date in dates)
            && (r.Success? && w in r.value.words ==> w.0 in dates && |w.1| > 0 && LowerStr(w.1) != "start w/:")
  {
    var handicaps := HandicapsOf(rows, hr, first, |dates|);
    StartWordsFacts(rows, h, first, dates, w);
    if handicaps.Success? {
      match FirstLayout(rows, h, first)
      case None =>
      case Some(layout) =>
        RowsSpecFacts(rows, h + 1, |rows|, layout, first, dates, handicaps.value, s);
    }
  }

  /** process_file ends with one of four errors: no header, no dates, no
      data-row layout, or IndexError; without a header with a date it
      fails with the first, and with a header whose first date column
      starts no dates, with the second. */
  lemma {:induction false} FileErrors(rows: seq<Row>, strptime: Strptime)
    ensures var r := FileSpec(rows, strptime);
            (r.Failure? ==> r.error in {NoHeader, NoDates, NoLayout, IndexError})
            && (HeaderAt(rows, strptime).None? <==> r == Failure(NoHeader))
            && (HeaderAt(rows, strptime).Some? && |FileDates(rows, strptime)| == 0 <==> r == Failure(NoDates))
  {
    var meta := HeaderMeta(rows, strptime);
    if meta.Some? {
      var (h, hr, c) := meta.value;
      var dates := DateRun(ParsedCells(rows[h], strptime), c);
      BodyFacts(rows, h, hr, c, dates, Score("", "", "", Int(0)), ("", ""));
    }
  }

  /** Every score process_file returns is of a league player on a date of
      the header, and every starting word is a kept word under one. */
  lemma {:induction false} FileOutFacts(rows: seq<Row>, strptime: Strptime, s: Score, w: (string, string))
    requires FileSpec(rows, strptime).Success?
    ensures var out := FileSpec(rows, strptime).value;
            (s in out.scores ==> s.player in Players && s.date in FileDates(rows, strptime))
            && (w in out.words ==> w.0 in FileDates(rows, strptime) && |w.1| > 0 && LowerStr(w.1) != "start w/:")
  {
    var (h, hr, c) := HeaderMeta(rows, strptime).value;
    var dates := DateRun(ParsedCells(rows[h], strptime), c);
    BodyFacts(rows, h, hr, c, dates, s, w);
  }
}
