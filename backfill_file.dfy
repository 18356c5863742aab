/** process_file on the rows of one league spreadsheet (backfill_league.py
    lines 193-291): the header lookup, the dates, the handicaps, the
    starting words, the data-row layout and the scores, each stage ending
    the run with its own error when it finds nothing. Reading the file and
    parsing it as CSV are not modelled: the rows are given. */
module BackfillFile {
  import opened Wrappers
  import opened Text
  import opened BackfillCells
  import opened Seqs
  import opened BackfillSheet

  /** The SystemExit messages of process_file, without the file path in front. */
  const NoHeader := "could not find header row with dates"
  const NoDates := "no dates found"
  const NoLayout := "could not find data row layout (no 'raw' row after header)"

  /** What process_file returns: the scores and the (date, word) pairs. */
  datatype FileOut = FileOut(scores: seq<Score>, words: seq<(string, string)>)

  // ---------------------------------------------------------------------
  // The searches, as functions

  /** The starting words: none without a words row after the header. */
  function StartWords(rows: seq<Row>, h: nat, first: nat, dates: seq<string>): Result<seq<(string, string)>, string> {
    match FirstFrom(rows, MentionsStartWords, h + 1)
    case None => Success([])
    case Some(w) => WordsOfRow(rows[w], first, dates)
  }

  // ---------------------------------------------------------------------
  // The outcome of process_file

  /** Everything process_file does once it has the header row h, the
      handicap row hr, the first date column and the dates. */
  function BodySpec(rows: seq<Row>, h: nat, hr: int, first: nat, dates: seq<string>): Result<FileOut, string> {
    match HandicapsOf(rows, hr, first, |dates|)
    case Failure(e) => Failure(e)
    case Success(handicaps) =>
      match StartWords(rows, h, first, dates)
      case Failure(e) => Failure(e)
      case Success(words) =>
        match FirstLayout(rows, h, first)
        case None => Failure(NoLayout)
        case Some(layout) =>
          match RowsSpec(rows, h + 1, |rows|, layout, first, dates, handicaps)
          case Failure(e) => Failure(e)
          case Success(scores) => Success(FileOut(scores, words))
  }

  /** The dates of the header, none when there is no header with a date. */
  function FileDates(rows: seq<Row>, strptime: Strptime): seq<string> {
    match HeaderAt(rows, strptime)
    case None => []
    case Some((h, c)) => DateRun(ParsedCells(rows[h], strptime), c)
  }

  /** process_file's outcome on the rows of a file. */
  function FileSpec(rows: seq<Row>, strptime: Strptime): Result<FileOut, string> {
    match HeaderMeta(rows, strptime)
    case None => Failure(NoHeader)
    case Some((h, hr, c)) =>
      var dates := DateRun(ParsedCells(rows[h], strptime), c);
      if |dates| == 0 then Failure(NoDates)
      else BodySpec(rows, h, hr, c, dates)
  }

  // ---------------------------------------------------------------------
  // process_file

  /** process_file: the scores and starting words of one spreadsheet, or
      the error that ends the run. */
  method ProcessFile(rows: seq<Row>, strptime: Strptime) returns (r: Result<FileOut, string>)
    ensures r == FileSpec(rows, strptime)
  {
    var meta := FindHeaderAndHandicap(rows, strptime);
    if meta.None? {
      return Failure(NoHeader);
    }
    var (h, hr, c) := meta.value;
    var dates := ExtractDates(rows[h], c, strptime);
    if |dates| == 0 {
      return Failure(NoDates);
    }
    r := ProcessBody(rows, h, hr, c, dates);
  }

  /** The part of process_file after the dates were read. */
  method ProcessBody(rows: seq<Row>, h: nat, hr: int, first: nat, dates: seq<string>)
    returns (r: Result<FileOut, string>)
    requires h < |rows|
    ensures r == BodySpec(rows, h, hr, first, dates)
  {
    var handicaps := ExtractHandicaps(rows, hr, first, |dates|);
    if handicaps.Failure? {
      return Failure(handicaps.error);
    }
    var words := ReadStartWords(rows, h, first, dates);
    if words.Failure? {
      return Failure(words.error);
    }
    var layout := DetectLayout(rows, h, first);
    if layout.None? {
      return Failure(NoLayout);
    }
    var scores := ProcessRows(rows, h, layout.value, first, dates, handicaps.value);
    if scores.Failure? {
      return Failure(scores.error);
    }
    return Success(FileOut(scores.value, words.value));
  }

  /** The starting-words stage: the words row after the header, then its words. */
  method ReadStartWords(rows: seq<Row>, h: nat, first: nat, dates: seq<string>)
    returns (r: Result<seq<(string, string)>, string>)
    ensures r == StartWords(rows, h, first, dates)
  {
    var wordsRow := FindStartingWordsRow(rows, h + 1);
    if wordsRow.None? {
      return Success([]);
    }
    r := WordsUnderDates(rows[wordsRow.value], first, dates);
  }
}
