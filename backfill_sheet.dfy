/** One league spreadsheet, as rows of cells, turned into raw scores and
    starting words: where the header, the handicap row and the first date
    column are, which dates the header lists, the handicap and the starting
    word under each date, the column layout of the data rows, and the
    scores each data row yields.

    Python indexing is modelled as it is: a negative index counts from the
    end of the list, and an index outside the list raises IndexError, which
    ends the run and is modelled as a Failure. */
module BackfillSheet {
  import opened Wrappers
  import opened Text
  import opened BackfillCells
  import opened Seqs

  type Row = seq<string>

  /** `s[i]` in Python. */
  function PyAt<T>(s: seq<T>, i: int): (r: Option<T>)
    ensures r.Some? <==> -|s| <= i < |s|
    ensures 0 <= i < |s| ==> r == Some(s[i])
  {
    if 0 <= i < |s| then Some(s[i])
    else if -|s| <= i < 0 then Some(s[|s| + i])
    else None
  }

  const IndexError := "IndexError: list index out of range"

  /** `(cell or "").strip().lower()`, with ASCII case folding. */
  function Norm(cell: string): string { LowerStr(PyStrip(cell)) }

  // ---------------------------------------------------------------------
  // Header, first date column, handicap row

  /** The header row names the puzzle, player and category columns. */
  predicate IsHeader(row: Row) {
    "puz" in row && "player" in row && "cat." in row
  }

  predicate MentionsHandicap(row: Row) {
    (exists k | 0 <= k < |row| :: Contains(row[k], "xword handicap"))
    || (exists k | 0 <= k < |row| :: Contains(LowerStr(row[k]), "handicap"))
  }

  /** h is the first header row. */
  ghost predicate FirstHeader(rows: seq<Row>, h: nat) {
    h < |rows| && IsHeader(rows[h]) && forall i | 0 <= i < h :: !IsHeader(rows[i])
  }

  /** c is the first column of the row that holds a date. */
  ghost predicate FirstDateIn(row: Row, c: nat, strptime: Strptime) {
    c < |row| && IsDate(row[c], strptime) && forall j | 0 <= j < c :: !IsDate(row[j], strptime)
  }

  /** hr is the nearest row above the header that mentions a handicap, or
      two rows above the header when none does. */
  ghost predicate HandicapRowOf(rows: seq<Row>, h: nat, hr: int)
    requires h <= |rows|
  {
    if exists i | 0 <= i < h :: MentionsHandicap(rows[i]) then
      0 <= hr < h && MentionsHandicap(rows[hr]) && forall i | hr < i < h :: !MentionsHandicap(rows[i])
    else hr == h - 2
  }

  /** A header cell that holds a date. */
  function DateCell(strptime: Strptime): string -> bool {
    cell => IsDate(cell, strptime)
  }

  /** The header row and its first date column. */
  function HeaderAt(rows: seq<Row>, strptime: Strptime): (r: Option<(nat, nat)>)
    ensures r.Some? ==> r.value.0 < |rows| && r.value.1 < |rows[r.value.0]|
  {
    match FirstFrom(rows, IsHeader, 0)
    case None => None
    case Some(h) =>
      match FirstFrom(rows[h], DateCell(strptime), 0)
      case None => None
      case Some(c) => Some((h, c))
  }

  /** The handicap row: the nearest row from i upwards that mentions a
      handicap, or two rows above the header h when none does. */
  function HandicapFrom(rows: seq<Row>, i: int, h: int): int
    requires -1 <= i < |rows|
    decreases i + 1
  {
    if i < 0 then h - 2
    else if MentionsHandicap(rows[i]) then i
    else HandicapFrom(rows, i - 1, h)
  }

  /** find_header_and_handicap's result: the header row, the handicap
      row and the first date column. */
  function HeaderMeta(rows: seq<Row>, strptime: Strptime): (r: Option<(nat, int, nat)>)
    ensures r.Some? ==> r.value.0 < |rows| && r.value.2 < |rows[r.value.0]|
  {
    match HeaderAt(rows, strptime)
    case None => None
    case Some((h, c)) => Some((h, HandicapFrom(rows, h - 1, h), c))
  }

  lemma {:induction false} HandicapFromFound(rows: seq<Row>, i: int, h: int, hr: nat)
    requires hr <= i < |rows| && MentionsHandicap(rows[hr])
    requires forall k | hr < k <= i :: !MentionsHandicap(rows[k])
    ensures HandicapFrom(rows, i, h) == hr
    decreases i
  {
    if i > hr {
      HandicapFromFound(rows, i - 1, h, hr);
    }
  }

  lemma {:induction false} HandicapFromFallback(rows: seq<Row>, i: int, h: int)
    requires -1 <= i < |rows| && forall k | 0 <= k <= i :: !MentionsHandicap(rows[k])
    ensures HandicapFrom(rows, i, h) == h - 2
    decreases i + 1
  {
    if i >= 0 {
      HandicapFromFallback(rows, i - 1, h);
    }
  }

  /** The handicap row that find_header_and_handicap settles on is HandicapFrom's. */
  lemma {:induction false} HandicapRowIs(rows: seq<Row>, h: nat, hr: int)
    requires h <= |rows| && HandicapRowOf(rows, h, hr)
    ensures HandicapFrom(rows, h - 1, h) == hr
  {
    if exists i | 0 <= i < h :: MentionsHandicap(rows[i]) {
      HandicapFromFound(rows, h - 1, h, hr);
    } else {
      HandicapFromFallback(rows, h - 1, h);
    }
  }

  /** The header row and date column are those HeaderAt finds, in both directions. */
  lemma {:induction false} HeaderAtSpec(rows: seq<Row>, strptime: Strptime, h: nat, c: nat)
    ensures HeaderAt(rows, strptime) == Some((h, c)) <==> FirstHeader(rows, h) && FirstDateIn(rows[h], c, strptime)
  {
    FirstFromFirst(rows, IsHeader, 0);
    if h < |rows| {
      FirstFromFirst(rows[h], DateCell(strptime), 0);
    }
    if FirstHeader(rows, h) && FirstDateIn(rows[h], c, strptime) {
      FirstFromIs(rows, IsHeader, 0, h);
      FirstFromIs(rows[h], DateCell(strptime), 0, c);
    }
  }

  /** HeaderAt finds nothing exactly when there is no header row or the
      first one holds no date. */
  lemma {:induction false} HeaderAtNone(rows: seq<Row>, strptime: Strptime)
    ensures HeaderAt(rows, strptime).None?
            <==> (forall i | 0 <= i < |rows| :: !IsHeader(rows[i]))
                 || exists h: nat :: FirstHeader(rows, h) && forall j | 0 <= j < |rows[h]| :: !IsDate(rows[h][j], strptime)
  {
    FirstFromFirst(rows, IsHeader, 0);
    var fh := FirstFrom(rows, IsHeader, 0);
    if fh.Some? {
      var h := fh.value;
      assert FirstHeader(rows, h);
      FirstFromFirst(rows[h], DateCell(strptime), 0);
      if FirstFrom(rows[h], DateCell(strptime), 0).None? {
        assert forall j | 0 <= j < |rows[h]| :: !IsDate(rows[h][j], strptime) by {
          forall j | 0 <= j < |rows[h]| ensures !IsDate(rows[h][j], strptime) {
            assert !DateCell(strptime)(rows[h][j]);
          }
        }
      }
    }
  }

  /** The first header row. */
  method FindHeader(rows: seq<Row>) returns (h: Option<nat>)
    ensures h == FirstFrom(rows, IsHeader, 0)
  {
    for i := 0 to |rows|
      invariant FirstFrom(rows, IsHeader, 0) == FirstFrom(rows, IsHeader, i)
    {
      var row := rows[i];
      if |row| == 0 {
        continue;
      }
      if "puz" in row && "player" in row && "cat." in row {
        return Some(i);
      }
    }
    return None;
  }

  /** The first column of the header that holds a date. */
  method FirstDateCol(header: Row, strptime: Strptime) returns (c: Option<nat>)
    ensures c == FirstFrom(header, DateCell(strptime), 0)
  {
    for j := 0 to |header|
      invariant FirstFrom(header, DateCell(strptime), 0) == FirstFrom(header, DateCell(strptime), j)
    {
      if IsDate(header[j], strptime) {
        return Some(j);
      }
    }
    return None;
  }

  /** The nearest row above the header that mentions a handicap, else two
      rows above the header. */
  method FindHandicapRow(rows: seq<Row>, h: nat) returns (hr: int)
    requires h <= |rows|
    ensures hr == HandicapFrom(rows, h - 1, h)
  {
    var i := h - 1;
    while i >= 0
      invariant -1 <= i < h
      invariant HandicapFrom(rows, h - 1, h) == HandicapFrom(rows, i, h)
    {
      var row := rows[i];
      if exists k | 0 <= k < |row| :: Contains(row[k], "xword handicap") {
        return i;
      }
      if exists k | 0 <= k < |row| :: Contains(LowerStr(row[k]), "handicap") {
        return i;
      }
      i := i - 1;
    }
    return h - 2;
  }

  /** HandicapFrom settles on the row HandicapRowOf describes. */
  lemma {:induction false} HandicapFromSpec(rows: seq<Row>, h: nat)
    requires h <= |rows|
    ensures HandicapRowOf(rows, h, HandicapFrom(rows, h - 1, h))
  {
    HandicapFromBelow(rows, h - 1, h);
  }

  lemma {:induction false} HandicapFromBelow(rows: seq<Row>, i: int, h: int)
    requires -1 <= i < |rows|
    ensures var r := HandicapFrom(rows, i, h);
            if exists k | 0 <= k <= i :: MentionsHandicap(rows[k]) then
              0 <= r <= i && MentionsHandicap(rows[r]) && forall k | r < k <= i :: !MentionsHandicap(rows[k])
            else r == h - 2
    decreases i + 1
  {
    if i >= 0 && !MentionsHandicap(rows[i]) {
      HandicapFromBelow(rows, i - 1, h);
      if exists k | 0 <= k <= i :: MentionsHandicap(rows[k]) {
        var k :| 0 <= k <= i && MentionsHandicap(rows[k]);
        assert k < i;
      }
    }
  }

  /** find_header_and_handicap: (header row, handicap row, first date column). */
  method FindHeaderAndHandicap(rows: seq<Row>, strptime: Strptime) returns (r: Option<(nat, int, nat)>)
    ensures r == HeaderMeta(rows, strptime)
  {
    var h := FindHeader(rows);
    if h.None? {
      return None;
    }
    var c := FirstDateCol(rows[h.value], strptime);
    if c.None? {
      return None;
    }
    var hr := FindHandicapRow(rows, h.value);
    return Some((h.value, hr, c.value));
  }

  predicate MentionsStartWords(row: Row) {
    exists k | 0 <= k < |row| :: Contains(Norm0(row[k]), "start w")
  }

  /** `(cell or "").lower()` */
  function Norm0(cell: string): string { LowerStr(cell) }

  /** find_starting_words_row: the first row from `after` on that mentions
      the starting words. */
  method FindStartingWordsRow(rows: seq<Row>, after: nat) returns (w: Option<nat>)
    ensures w == FirstFrom(rows, MentionsStartWords, after)
  {
    var i := after;
    while i < |rows|
      invariant after <= i
      invariant FirstFrom(rows, MentionsStartWords, after) == FirstFrom(rows, MentionsStartWords, i)
    {
      if MentionsStartWords(rows[i]) {
        return Some(i);
      }
      i := i + 1;
    }
    return None;
  }

  // ---------------------------------------------------------------------
  // Dates, handicaps and starting words under the date columns

  /** parse_date of every cell of the header. */
  function ParsedCells(header: Row, strptime: Strptime): (ps: seq<Option<string>>)
    ensures |ps| == |header|
  {
    seq(|header|, k requires 0 <= k < |header| => ParseDate(header[k], strptime))
  }

  /** The dates of the run of date cells from column j, given each cell's
      parse_date. */
  function DateRun(ps: seq<Option<string>>, j: nat): (ds: seq<string>)
    decreases |ps| - j
  {
    if j >= |ps| || ps[j].None? || |ps[j].value| == 0 then []
    else [ps[j].value] + DateRun(ps, j + 1)
  }

  /** Consuming one more date of the run. */
  lemma {:induction false} DateRunStep(ps: seq<Option<string>>, first: nat, j: nat, dates: seq<string>)
    requires DateRun(ps, first) == dates + DateRun(ps, j)
    requires j < |ps| && ps[j].Some? && |ps[j].value| > 0
    ensures DateRun(ps, first) == (dates + [ps[j].value]) + DateRun(ps, j + 1)
  {
    var rest := DateRun(ps, j + 1);
    assert DateRun(ps, j) == [ps[j].value] + rest;
    assert dates + ([ps[j].value] + rest) == (dates + [ps[j].value]) + rest;
  }

  /** The i-th date of the run from j is the parsed cell j + i. */
  lemma {:induction false} DateRunAt(ps: seq<Option<string>>, j: nat, i: nat)
    requires i < |DateRun(ps, j)|
    ensures j + i < |ps| && ps[j + i].Some? && ps[j + i].value == DateRun(ps, j)[i] && |DateRun(ps, j)[i]| > 0
    decreases i
  {
    var rest := DateRun(ps, j + 1);
    assert DateRun(ps, j) == [ps[j].value] + rest;
    if i > 0 {
      DateRunAt(ps, j + 1, i - 1);
      assert DateRun(ps, j)[i] == rest[i - 1];
    }
  }

  /** The run stops at the end of the row or at a cell that is no date. */
  lemma {:induction false} DateRunEnd(ps: seq<Option<string>>, j: nat)
    ensures var e := j + |DateRun(ps, j)|; e >= |ps| || ps[e].None? || |ps[e].value| == 0
    decreases |ps| - j
  {
    if !(j >= |ps| || ps[j].None? || |ps[j].value| == 0) {
      DateRunEnd(ps, j + 1);
      assert |DateRun(ps, j)| == 1 + |DateRun(ps, j + 1)|;
    }
  }

  /** Each date of the run is parse_date of its own header cell, which is
      a date. */
  lemma {:induction false} DateRunCell(header: Row, first: nat, strptime: Strptime, i: nat)
    requires i < |DateRun(ParsedCells(header, strptime), first)|
    ensures first + i < |header| && IsDate(header[first + i], strptime)
    ensures ParseDate(header[first + i], strptime) == Some(DateRun(ParsedCells(header, strptime), first)[i])
  {
    var ps := ParsedCells(header, strptime);
    DateRunAt(ps, first, i);
    assert ps[first + i] == ParseDate(header[first + i], strptime);
  }

  /** The run is the longest one: the cell right after it is past the
      row's end or is not a date. */
  lemma {:induction false} DateRunLongest(header: Row, first: nat, strptime: Strptime)
    ensures var e := first + |DateRun(ParsedCells(header, strptime), first)|;
            e >= |header| || !IsDate(header[e], strptime)
  {
    var ps := ParsedCells(header, strptime);
    var e := first + |DateRun(ps, first)|;
    DateRunEnd(ps, first);
    if e < |header| {
      assert ps[e] == ParseDate(header[e], strptime);
    }
  }

  /** extract_dates: the run of date cells that starts at the first date
      column, as far as it goes. */
  method ExtractDates(header: Row, first: nat, strptime: Strptime) returns (dates: seq<string>)
    ensures dates == DateRun(ParsedCells(header, strptime), first)
  {
    // parse_date has no effect, so the cells are parsed before the loop
    var ps := ParsedCells(header, strptime);
    dates := [];
    var j := first;
    while j < |header|
      invariant first <= j
      invariant DateRun(ps, first) == dates + DateRun(ps, j)
    {
      var d := ps[j];
      if d.Some? && |d.value| > 0 {
        DateRunStep(ps, first, j, dates);
        dates := dates + [d.value];
      } else {
        assert DateRun(ps, j) == [];
        break;
      }
      j := j + 1;
    }
    assert DateRun(ps, j) == [];
  }

  /** extract_handicaps_per_date's outcome: one handicap per date, or the
      IndexError that the handicap row index raises. */
  function HandicapsOf(rows: seq<Row>, hr: int, first: nat, n: nat): Result<seq<Option<real>>, string> {
    match PyAt(rows, hr)
    case None => Failure(IndexError)
    case Some(row) =>
      Success(seq(n, i requires 0 <= i < n => if first + i < |row| then ParseHandicap(row[first + i]) else None))
  }

  /** extract_handicaps_per_date: one entry per date, read from the cell
      under it in the handicap row, None past the row's end. */
  method ExtractHandicaps(rows: seq<Row>, hr: int, first: nat, numDates: nat)
    returns (r: Result<seq<Option<real>>, string>)
    ensures r == HandicapsOf(rows, hr, first, numDates)
  {
    var at := PyAt(rows, hr);
    if at.None? {
      return Failure(IndexError);
    }
    var row := at.value;
    var out: seq<Option<real>> := [];
    for i := 0 to numDates
      invariant |out| == i
      invariant forall i' | 0 <= i' < i ::
                  out[i'] == if first + i' < |row| then ParseHandicap(row[first + i']) else None
    {
      var col := first + i;
      if col < |row| {
        out := out + [ParseHandicap(row[col])];
      } else {
        out := out + [None];
      }
    }
    assert out == seq(numDates, i requires 0 <= i < numDates =>
                        if first + i < |row| then ParseHandicap(row[first + i]) else None);
    return Success(out);
  }

  /** The starting word in column col of the words row, if the cell holds
      one: not blank and not the row's own label. */
  function WordOf(row: Row, col: int): (r: Option<string>)
  {
    if col >= |row| then None
    else match PyAt(row, col)
      case None => None
      case Some(cell) => KeptWord(PyStrip(cell))
  }

  function KeptWord(w: string): (r: Option<string>)
  {
    if |w| > 0 && LowerStr(w) != "start w/:" then Some(w) else None
  }

  /** Reading column col raises IndexError: only column -1 of an empty row,
      the column left of a first date column 0. */
  predicate WordFails(row: Row, col: int) {
    col < -|row|
  }

  /** The word, if any, of each of the first n date columns: the word of
      date i is in the column left of the date's own column. */
  function ColumnWords(row: Row, first: nat, n: nat): (ws: seq<Option<string>>)
    ensures |ws| == n
  {
    seq(n, i requires 0 <= i < n => WordOf(row, first - 1 + i))
  }

  /** The (date, word) pairs of the columns that hold a word, in date order. */
  function Words(ws: seq<Option<string>>, dates: seq<string>): (r: seq<(string, string)>)
    requires |ws| <= |dates|
    ensures |r| <= |ws|
  {
    if |ws| == 0 then []
    else
      var n := |ws| - 1;
      var acc := Words(ws[..n], dates);
      match ws[n]
      case None => acc
      case Some(w) => acc + [(dates[n], w)]
  }

  /** The body of extract_starting_words' loop for one column. */
  method WordAt(row: Row, col: int) returns (r: Result<Option<string>, string>)
    ensures r.Failure? <==> WordFails(row, col)
    ensures r.Success? ==> r.value == WordOf(row, col)
  {
    if col < |row| {
      var cell := PyAt(row, col);
      if cell.None? {
        return Failure(IndexError);
      }
      var w := PyStrip(cell.value);
      if |w| > 0 && LowerStr(w) != "start w/:" {
        return Success(Some(w));
      }
      return Success(None);
    }
    return Success(None);
  }

  /** `out.append((date, w))` when the column held a word. */
  method WordsStep(ghost ws: seq<Option<string>>, dates: seq<string>, i: nat,
                   out: seq<(string, string)>, w: Option<string>)
    returns (out': seq<(string, string)>)
    requires i < |ws| <= |dates| && out == Words(ws[..i], dates) && w == ws[i]
    ensures out' == Words(ws[..i + 1], dates)
  {
    assert ws[..i + 1][..i] == ws[..i];
    out' := out;
    if w.Some? {
      out' := out + [(dates[i], w.value)];
    }
  }

  /** extract_starting_words: the words under the dates, in date order; it
      raises IndexError only for an empty words row when the first date
      column is column 0. */
  method ExtractStartingWords(rows: seq<Row>, wordsRow: nat, first: nat, dates: seq<string>)
    returns (r: Result<seq<(string, string)>, string>)
    requires wordsRow < |rows|
    ensures r.Failure? <==> first == 0 && |rows[wordsRow]| == 0 && |dates| > 0
    ensures r.Success? ==> r.value == Words(ColumnWords(rows[wordsRow], first, |dates|), dates)
  {
    r := WordsUnderDates(rows[wordsRow], first, dates);
  }

  /** The outcome of extract_starting_words on one row: the words, or the
      IndexError that reading column -1 of an empty row raises. */
  function WordsOfRow(row: Row, first: nat, dates: seq<string>): Result<seq<(string, string)>, string> {
    if first == 0 && |row| == 0 && |dates| > 0 then Failure(IndexError)
    else Success(Words(ColumnWords(row, first, |dates|), dates))
  }

  /** The loop of extract_starting_words over the dates. */
  method WordsUnderDates(row: Row, first: nat, dates: seq<string>)
    returns (r: Result<seq<(string, string)>, string>)
    ensures r == WordsOfRow(row, first, dates)
  {
    ghost var ws := ColumnWords(row, first, |dates|);
    var out: seq<(string, string)> := [];
    var i := 0;
    while i < |dates|
      invariant i <= |dates|
      invariant out == Words(ws[..i], dates)
      invariant i > 0 ==> !(first == 0 && |row| == 0)
    {
      var w := WordAt(row, first - 1 + i);
      if w.Failure? {
        return Failure(IndexError);
      }
      assert w.value == ws[i];
      out := WordsStep(ws, dates, i, out, w.value);
      i := i + 1;
    }
    assert ws[..i] == ws;
    return Success(out);
  }

  // ---------------------------------------------------------------------
  // Data-row layout

  /** Where the game, player and category columns sit relative to the
      first date column, and how far right of it the scores start. */
  datatype Layout = Layout(gameCol: int, playerCol: int, catCol: int, scoreOffset: nat)

  /** The layout a data row reveals by holding "raw" at the first date
      column (scores one further right) or just before it. */
  function LayoutOf(row: Row, first: nat): (r: Option<Layout>)
  {
    if |row| <= first then None
    else if Norm(row[first]) == "raw" then Some(Layout(first - 2, first - 1, first, 1))
    else if first > 0 && Norm(row[first - 1]) == "raw" then Some(Layout(first - 3, first - 2, first - 1, 0))
    else None
  }

  /** A layout puts the category column, holding "raw", just left of the
      scores, with the player and the game columns to its left. */
  lemma {:induction false} LayoutOfSpec(row: Row, first: nat)
    ensures var r := LayoutOf(row, first);
            r.Some? ==> var l := r.value;
              l.catCol == first + l.scoreOffset - 1 && l.playerCol == l.catCol - 1 && l.gameCol == l.catCol - 2
              && 0 <= l.catCol < |row| && Norm(row[l.catCol]) == "raw"
  {
  }

  /** A row that reveals a layout. */
  function ShowsLayout(first: nat): Row -> bool {
    row => LayoutOf(row, first).Some?
  }

  /** The end of the five rows after the header that may reveal the layout. */
  function LayoutEnd(h: nat, n: nat): (e: nat)
    ensures e <= n
  {
    if h + 6 < n then h + 6 else n
  }

  /** The layout of the first row of the five after the header that reveals one. */
  function FirstLayout(rows: seq<Row>, h: nat, first: nat): Option<Layout> {
    var window := rows[..LayoutEnd(h, |rows|)];
    match FirstFrom(window, ShowsLayout(first), h + 1)
    case None => None
    case Some(i) => LayoutOf(window[i], first)
  }

  /** The layout of the first of the five rows after the header that shows one. */
  method DetectLayout(rows: seq<Row>, h: nat, first: nat) returns (r: Option<Layout>)
    ensures r == FirstLayout(rows, h, first)
  {
    var hi := LayoutEnd(h, |rows|);
    ghost var window := rows[..hi];
    var i := h + 1;
    while i < hi
      invariant h + 1 <= i
      invariant FirstFrom(window, ShowsLayout(first), h + 1) == FirstFrom(window, ShowsLayout(first), i)
    {
      var row := rows[i];
      assert window[i] == row;
      if |row| <= first {
        i := i + 1;
        continue;
      }
      var rawAtDate := Norm(row[first]) == "raw";
      var rawBefore := first > 0 && Norm(row[first - 1]) == "raw";
      if rawAtDate {
        return Some(Layout(first - 2, first - 1, first, 1));
      }
      if rawBefore {
        return Some(Layout(first - 3, first - 2, first - 1, 0));
      }
      i := i + 1;
    }
    return None;
  }

  // ---------------------------------------------------------------------
  // Scores of one data row

  /** A raw score as the backfill emits it. */
  datatype Score = Score(date: string, gameSlug: string, player: string, rawScore: Num)

  /** What a data row says about itself. */
  datatype RowInfo = RowInfo(slug: string, player: string, isCrossword: bool)

  /** How many date columns the row reaches, scores starting at column base. */
  function RowLimit(rowLen: nat, base: nat, numDates: nat): (n: nat)
    ensures n <= numDates && (n == 0 || base + n <= rowLen)
    ensures n == numDates || base + n >= rowLen
  {
    if base >= rowLen then 0
    else if numDates <= rowLen - base then numDates
    else rowLen - base
  }

  /** The numbers in the first n date cells of a row whose scores start at
      column base, None for a cell that holds none. */
  function Cells(row: Row, base: nat, n: nat): (c: seq<Option<Num>>)
    requires n == 0 || base + n <= |row|
    ensures |c| == n
  {
    seq(n, k requires 0 <= k < n => ParseScoreCell(row[base + k]))
  }

  /** The score that date column k yields for the number its cell holds. */
  function CellOut(cell: Option<Num>, dates: seq<string>, handicaps: seq<Option<real>>,
                   info: RowInfo, k: nat): seq<Score>
    requires k < |dates|
  {
    match cell
    case None => []
    case Some(v) =>
      var h := if k < |handicaps| then handicaps[k] else None;
      [Score(dates[k], info.slug, info.player,
             StoredValue(v, info.isCrossword, info.player, dates[k], h, info.slug))]
  }

  /** The scores the parsed date cells of a row yield, left to right. */
  function RowSpec(cells: seq<Option<Num>>, dates: seq<string>, handicaps: seq<Option<real>>,
                   info: RowInfo): seq<Score>
    requires |cells| <= |dates|
  {
    if |cells| == 0 then []
    else
      var n := |cells| - 1;
      RowSpec(cells[..n], dates, handicaps, info) + CellOut(cells[n], dates, handicaps, info, n)
  }

  /** The inner loop of process_file over the dates of one data row. */
  method RowScores(row: Row, dates: seq<string>, handicaps: seq<Option<real>>, base: nat, info: RowInfo)
    returns (scores: seq<Score>)
    ensures scores == RowSpec(Cells(row, base, RowLimit(|row|, base, |dates|)), dates, handicaps, info)
  {
    // Parsing a cell has no effect, so the cells the loop reaches are
    // parsed before it rather than one by one.
    var cells := Cells(row, base, RowLimit(|row|, base, |dates|));
    scores := [];
    var k := 0;
    while k < |dates|
      invariant k <= |cells|
      invariant scores == RowSpec(cells[..k], dates, handicaps, info)
    {
      var scoreCol := base + k;
      if scoreCol >= |row| {
        break;
      }
      var parsed := cells[k];
      ghost var next := cells[..k + 1];
      assert next[..k] == cells[..k] && next[k] == parsed;
      if parsed.None? {
        k := k + 1;
        continue;
      }
      var val := CellValue(parsed.value, dates, handicaps, info, k);
      scores := scores + [Score(dates[k], info.slug, info.player, val)];
      k := k + 1;
    }
    assert cells[..k] == cells;
  }

  /** The value stored for the number in date column k: the handicap
      undone for a reversed crossword score, Wordle and Connections re-coded. */
  method CellValue(parsed: Num, dates: seq<string>, handicaps: seq<Option<real>>, info: RowInfo, k: nat)
    returns (val: Num)
    requires k < |dates|
    ensures val == StoredValue(parsed, info.isCrossword, info.player, dates[k],
                               if k < |handicaps| then handicaps[k] else None, info.slug)
  {
    val := parsed;
    if info.isCrossword && GetsHandicapReversal(info.player, dates[k]) {
      var h := if k < |handicaps| then handicaps[k] else None;
      val := ReverseHandicap(val, h);
    }
    if info.slug == "wordle" {
      val := WordleMap(val);
    }
    if info.slug == "connections" {
      val := ConnectionsMap(val);
    }
  }

  function Max3(a: int, b: int, c: int): (m: int)
    ensures m >= a && m >= b && m >= c && (m == a || m == b || m == c)
  {
    if a >= b && a >= c then a else if b >= c then b else c
  }

  /** What the category, game and player cells of a data row say: the
      IndexError a cell left of the row raises, None for a row to skip, or
      the slug and player of a "raw" row of a named game and a league
      player. */
  function RowInfoOf(row: Row, layout: Layout): (r: Result<Option<RowInfo>, string>)
  {
    if |row| <= Max3(layout.gameCol, layout.playerCol, layout.catCol) then Success(None)
    else match PyAt(row, layout.catCol)
      case None => Failure(IndexError)
      case Some(cat) =>
        if Norm(cat) != "raw" then Success(None)
        else match PyAt(row, layout.gameCol)
          case None => Failure(IndexError)
          case Some(game) =>
            match PyAt(row, layout.playerCol)
            case None => Failure(IndexError)
            case Some(who) =>
              var name := Norm(game);
              var player := Norm(who);
              if |name| == 0 || player !in Players then Success(None)
              else Success(Some(RowInfo(SlugOf(name), player, name == "crossword")))
  }

  /** A row fails only with IndexError; a row it keeps is a "raw" row of
      a named game and a league player, whose slug and crossword flag come
      from the game cell. */
  lemma {:induction false} RowInfoOfSpec(row: Row, layout: Layout)
    ensures var r := RowInfoOf(row, layout);
            (r.Failure? ==> r.error == IndexError)
            && (r.Success? && r.value.Some? ==>
                  var cat := PyAt(row, layout.catCol);
                  var game := PyAt(row, layout.gameCol);
                  var who := PyAt(row, layout.playerCol);
                  cat.Some? && game.Some? && who.Some? && Norm(cat.value) == "raw"
                  && |Norm(game.value)| > 0 && r.value.value.slug == SlugOf(Norm(game.value))
                  && r.value.value.isCrossword == (Norm(game.value) == "crossword")
                  && r.value.value.player == Norm(who.value) && r.value.value.player in Players)
  {
  }

  /** The scores a data row yields given what its cells say: none for a
      row to skip, the scores of its parsed date cells otherwise. */
  function EmitWith(info: Result<Option<RowInfo>, string>, cells: seq<Option<Num>>, dates: seq<string>,
                    handicaps: seq<Option<real>>): Result<seq<Score>, string>
    requires |cells| <= |dates|
  {
    match info
    case Failure(e) => Failure(e)
    case Success(None) => Success([])
    case Success(Some(i)) => Success(RowSpec(cells, dates, handicaps, i))
  }

  /** The scores one data row yields: none unless its category is "raw",
      its game is named and its player is in the league. */
  function RowEmit(row: Row, layout: Layout, base: nat, dates: seq<string>,
                   handicaps: seq<Option<real>>): Result<seq<Score>, string>
  {
    EmitWith(RowInfoOf(row, layout), Cells(row, base, RowLimit(|row|, base, |dates|)), dates, handicaps)
  }

  /** What each of rows lo..hi-1 yields, in row order. */
  function RowOutcomes(rows: seq<Row>, lo: nat, hi: nat, layout: Layout, first: nat,
                       dates: seq<string>, handicaps: seq<Option<real>>): (o: seq<Result<seq<Score>, string>>)
    requires lo <= hi <= |rows|
    ensures |o| == hi - lo
  {
    seq(hi - lo, j requires 0 <= j < hi - lo =>
          RowEmit(rows[lo + j], layout, first + layout.scoreOffset, dates, handicaps))
  }

  /** The scores so far followed by those of one more row; the first
      IndexError wins. */
  function AppendRow(acc: Result<seq<Score>, string>, x: Result<seq<Score>, string>): Result<seq<Score>, string> {
    if acc.Failure? then acc else if x.Failure? then x else Success(acc.value + x.value)
  }

  /** The scores of a run of row outcomes, in order, or the first IndexError. */
  function Collect(outs: seq<Result<seq<Score>, string>>): Result<seq<Score>, string> {
    if |outs| == 0 then Success([]) else AppendRow(Collect(outs[..|outs| - 1]), outs[|outs| - 1])
  }

  /** The scores of rows lo..hi-1, in row order, or the first IndexError. */
  function RowsSpec(rows: seq<Row>, lo: nat, hi: nat, layout: Layout, first: nat,
                    dates: seq<string>, handicaps: seq<Option<real>>): Result<seq<Score>, string>
    requires hi <= |rows|
  {
    if hi <= lo then Success([]) else Collect(RowOutcomes(rows, lo, hi, layout, first, dates, handicaps))
  }

  /** The outcomes of a shorter run of rows are a prefix of the longer run's. */
  lemma {:induction false} OutcomesPrefix(rows: seq<Row>, lo: nat, k: nat, hi: nat, layout: Layout, first: nat,
                                          dates: seq<string>, handicaps: seq<Option<real>>)
    requires lo <= k <= hi <= |rows|
    ensures RowOutcomes(rows, lo, hi, layout, first, dates, handicaps)[..k - lo]
            == RowOutcomes(rows, lo, k, layout, first, dates, handicaps)
  {
  }

  /** One more row: its outcome is appended to those of the rows before it. */
  lemma {:induction false} RowsSpecNext(rows: seq<Row>, lo: nat, i: nat, layout: Layout, first: nat,
                                        dates: seq<string>, handicaps: seq<Option<real>>)
    requires lo <= i < |rows|
    ensures RowsSpec(rows, lo, i + 1, layout, first, dates, handicaps)
            == AppendRow(RowsSpec(rows, lo, i, layout, first, dates, handicaps),
                         RowEmit(rows[i], layout, first + layout.scoreOffset, dates, handicaps))
  {
    var outs := RowOutcomes(rows, lo, i + 1, layout, first, dates, handicaps);
    OutcomesPrefix(rows, lo, i, i + 1, layout, first, dates, handicaps);
    assert outs[i - lo] == RowEmit(rows[i], layout, first + layout.scoreOffset, dates, handicaps);
    assert Collect(outs) == AppendRow(Collect(outs[..i - lo]), outs[i - lo]);
    if i == lo {
      assert outs[..0] == [];
    }
    assert Collect(outs[..i - lo]) == RowsSpec(rows, lo, i, layout, first, dates, handicaps);
  }

  /** An IndexError ends the run: once a prefix of the outcomes raises one,
      so does the whole run. */
  lemma {:induction false} CollectFailureSticks(outs: seq<Result<seq<Score>, string>>, k: nat)
    requires k <= |outs| && Collect(outs[..k]).Failure?
    ensures Collect(outs) == Collect(outs[..k])
    decreases |outs| - k
  {
    if k < |outs| {
      var n := |outs| - 1;
      assert outs[..n][..k] == outs[..k];
      CollectFailureSticks(outs[..n], k);
      assert outs[..|outs|] == outs;
    } else {
      assert outs[..k] == outs;
    }
  }

  /** The outer loop of process_file over the data rows. */
  method ProcessRows(rows: seq<Row>, h: nat, layout: Layout, first: nat,
                     dates: seq<string>, handicaps: seq<Option<real>>)
    returns (r: Result<seq<Score>, string>)
    ensures r == RowsSpec(rows, h + 1, |rows|, layout, first, dates, handicaps)
  {
    var i := h + 1;
    if i > |rows| {
      return Success([]);
    }
    r := Success([]);
    while i < |rows| && r.Success?
      invariant h + 1 <= i <= |rows|
      invariant r == RowsSpec(rows, h + 1, i, layout, first, dates, handicaps)
    {
      r := RowStep(rows, h + 1, i, layout, first, dates, handicaps, r.value);
      i := i + 1;
    }
    if r.Failure? {
      OutcomesPrefix(rows, h + 1, i, |rows|, layout, first, dates, handicaps);
      CollectFailureSticks(RowOutcomes(rows, h + 1, |rows|, layout, first, dates, handicaps), i - (h + 1));
    }
  }

  /** One pass of the outer loop: the scores of row i appended to those of
      the rows before it, or the IndexError the row raises. */
  method RowStep(rows: seq<Row>, lo: nat, i: nat, layout: Layout, first: nat,
                 dates: seq<string>, handicaps: seq<Option<real>>, scores: seq<Score>)
    returns (r: Result<seq<Score>, string>)
    requires lo <= i < |rows|
    requires RowsSpec(rows, lo, i, layout, first, dates, handicaps) == Success(scores)
    ensures r == RowsSpec(rows, lo, i + 1, layout, first, dates, handicaps)
  {
    var emitted := EmitRow(rows[i], layout, first, dates, handicaps);
    RowsSpecNext(rows, lo, i, layout, first, dates, handicaps);
    if emitted.Failure? {
      return emitted;
    }
    return Success(scores + emitted.value);
  }

  /** The body of the outer loop for one row. */
  method EmitRow(row: Row, layout: Layout, first: nat, dates: seq<string>, handicaps: seq<Option<real>>)
    returns (r: Result<seq<Score>, string>)
    ensures r == RowEmit(row, layout, first + layout.scoreOffset, dates, handicaps)
  {
    var info := ReadRowInfo(row, layout);
    if info.Failure? {
      return Failure(info.error);
    }
    if info.value.None? {
      return Success([]);
    }
    var scores := RowScores(row, dates, handicaps, first + layout.scoreOffset, info.value.value);
    return Success(scores);
  }

  /** The checks of the outer loop on the category, game and player cells. */
  method ReadRowInfo(row: Row, layout: Layout) returns (r: Result<Option<RowInfo>, string>)
    ensures r == RowInfoOf(row, layout)
  {
    if |row| <= Max3(layout.gameCol, layout.playerCol, layout.catCol) {
      return Success(None);
    }
    var cat := PyAt(row, layout.catCol);
    if cat.None? {
      return Failure(IndexError);
    }
    if Norm(cat.value) != "raw" {
      return Success(None);
    }
    var game := PyAt(row, layout.gameCol);
    if game.None? {
      return Failure(IndexError);
    }
    var who := PyAt(row, layout.playerCol);
    if who.None? {
      return Failure(IndexError);
    }
    var name := Norm(game.value);
    var player := Norm(who.value);
    if |name| == 0 || player !in Players {
      return Success(None);
    }
    var slug := SlugOf(name);
    var isCrossword := name == "crossword";
    return Success(Some(RowInfo(slug, player, isCrossword)));
  }
}
